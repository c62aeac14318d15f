# NexKVM: protocols and state machines, verified

NexKVM shares keyboard, mouse, clipboard and files between machines on a LAN.
This project models its four stateful parts in Dafny and proves what each of
them keeps over every run.

**Resumable file transfer.** `TransferCheckpoint` is the manifest and the
checkpoint arithmetic. `ReceiveDisk` is the receiver's disk (live files by name
and a bag of quarantined contents) and the sweep that recomputes the checkpoint
from whatever a crash left; `SweepOutcome` says from the names alone what the
sweep keeps and where it resumes. `ReceiveSession` is one accepted offer: opening,
chunks, rollback after a digest mismatch, completion. `Receiver` is the same
receiver as objects updated in place. `TransferProtocol` puts sender and
receiver together as a step system over channels that may lose or reorder
messages, with disconnection, timeouts, crashes and changing source files.
`TransferBothWays` is the same for two peers that each have a transfer for the
other, with the collision of their offers, and `BothDelivered` says what each
answers to an offer and that both transfers are delivered. `TransferLockstep` is the connection
nobody disturbs, and says exactly when it delivers; `TransferFailures` holds the
runs in which it does not. `PartAliases`, `AcknowledgedFiles`, `AliasOrder` and
`ChainedParts` are about manifests in which a file is named like another file's
part: when the sweep can be trusted with them, and exactly when the receiver
holds what it acknowledges. `RecordFile` puts the receiver's record where the
program has it, among the files. `OfferCollision` is two peers offering at once
up to the first acceptance, `IdleEcho` two peers with nothing to do. `SourceTree`
is the walk that builds the queued entries and the receiver's policy on them,
`SourceOrder` the order in which that walk lists names. `SourceListing` says, from
a tree alone, what its entries are, `QueuedContents` which chosen paths can be
queued and that every node below them then is, and `QueuedManifest` is the step
from a queue record to the manifest on offer.

**Peer sessions.** `SessionArbitration` is two machines joined by any number of
links: the lower identity decides, the other follows, and each end holds one
lease from its decision, through the sending of it, until every lane of the old
session is gone. `SessionEstablishment` is the other half: when a lease is taken,
a session begun and a lease given back, that an undisturbed exchange attaches both
ends, and that a session whose lanes are dropped makes room for the next.
`LaneRouting` is the fan-out of one session into bounded lanes.

**Clipboard.** `ConflictResolver` is the last-writer-wins resolver with its
hybrid clock and `ClipboardNetwork` any number of devices exchanging its
broadcasts. `ClipboardHistory` is the bounded history with pins and
`ClipboardTimeline` the availability index kept beside it. `ClipboardContent`
and `ClipboardCodec` are canonical snapshots and the two wire layouts (over the
buffer of `WireBytes` and the order and sort of `ByteOrder`), `SessionCipher`
the id-framed cipher over the sliding replay window, `ClipboardSync` the
pipeline from a copy on one machine to the snapshot on another,
`ClipboardDialogue` that pipeline in both directions at once, and
`ClipboardEmission` exactly which copies it sends.

**Input handoff.** `InputHandoff` is the forwarding loop with its held-key
record and cursor suppression, and the receiving loop with its cleanup.
`InputForwarding` says what the peer is owed over a run and that it is sent.

Where the program changes an object in place there is a class whose methods are
proved to compute a function of the old state; the results are lemmas about
those functions. Where two machines interact there is a step function and a
sequence of actions, and the results hold after every such sequence. For each
operation there is a result on what it must not do and one on what it must: the
sweep, the walk, the forwarding loop and the outbound pipeline are each described
once more, without their own functions, by what they are given.

## What turned out not to hold

Seven things one might expect of the code are false of it. Each has a lemma with
a concrete case and, beside it, the condition under which the code does meet the
expectation; the condition is exact except where it says otherwise.

* **A directory named like a part.** A file `a` beside a directory `a.part`
  passes the path rules and the policy, and the sender's own walk produces it.
  The receiver creates the directory first and its sweep then refuses to take it
  for a part (`apps/desktop/src/file_transfer.rs:1608-1615`), at this offer and
  every later one: `TransferFailures.PartDirectoryIsNeverDelivered`. A first
  attempt is delivered if and only if no directory is named like a file's part
  (`TransferLockstep.FirstAttemptDeliversIff`).
* **A crash before the first record.** A receiver that dies between creating the
  transfer's directory and recording anything leaves a directory that every later
  offer is refused for: `TransferFailures.RecordlessRootIsFatal`. The general form
  is `TransferLockstep.NeverOpens`.
* **Resuming past an empty file.** The sender gives a finished file the offset
  of its size. For an empty file that is 0, which
  `apps/desktop/src/file_transfer.rs:227` takes for a fresh start, so the file is
  sent again and the receiver refuses it, in this attempt and every later one:
  `TransferFailures.EmptyFileIsNeverPassed`, from the start of the protocol with
  one lost connection.
* **An entry named like the receiver's record.** The record lies in the transfer's
  own directory as `.nexkvm-transfer.toml` (`apps/desktop/src/file_transfer.rs:35`),
  a name the path rules admit. A file of that name is never written, since its
  destination exists; every sweep takes the record for a wrong copy of it and moves
  it aside; a directory of that name keeps the record from being written at all.
  Such a transfer is never delivered (`RecordFile.RecordNameIsNeverDelivered`, over
  every run in which no crash tears the disk). For every other manifest it makes no
  difference that the record lies among the files (`RecordFile.RunOnDiskIsRun`), so
  the other modules keep it apart and exclude such an entry.

  Apart from files named like parts, these four are all there is.
  `RecordFile.DeliversOnDiskIff`: from whatever earlier attempts left, an undisturbed
  transfer is acknowledged if and only if no entry is named like the record, its
  directory is new or has a record, no file or directory is in the way, and no empty
  file lies at or before the checkpoint resumed from. `TransferLockstep.DeliversIff`
  is the same without the first condition, with the record apart.
* **Files named like parts.** Path validation admits `a` and `a.part` as two
  files of one manifest, although the second is the name of the first one's
  partial file. The sweep can then move aside a live part or a delivered file
  (`ReceiveDisk.AliasBreaksSweep`). Every sweep from every disk can be trusted if
  and only if no file and no directory is named like a file's part
  (`PartAliases.SweepTrustworthyIff`), and a finished transfer survives a sweep if
  and only if there is no such pair of files (`ReceiveDisk.FinishedSurvivesIffNoAlias`).
  An acknowledgement is given for a transfer that is no longer held in the run of
  `TransferFailures.AcknowledgedTransferLost`, which starts from nothing, is never
  disturbed, and lists `a.part` before `a`. Over every run, the receiver holds every
  declared file whenever it acknowledges if and only if every file comes before a
  file named like its part (`AliasOrder.HeldIffOwnersFirst`). One direction,
  `AcknowledgedFiles.AcknowledgedIsHeld`, is for every manifest. The other is for
  manifests that have contents and no directory named like a part, and leaves out
  two kinds for which the order alone does not decide. In a chain such as `a`,
  `a.part.part`, `a.part` the last file can only be accepted over the second, so the
  contents decide: `ChainedParts.ChainIsNeverAcknowledged` has the order wrong and
  is never acknowledged. With an empty file no attempt resumes past it, so the torn
  disk that loses the file is not reached by an attempt that completes. Neither the
  order nor the loss can come from this sender: its sorted walk lists the owner
  first (`SourceOrder.QueuedOwnersFirst`), so whatever it queues is held when it is
  acknowledged (`QueuedManifest.QueuedIsHeldWhenAcknowledged`). The run results of
  `TransferProtocol` ask for more than holding the files, namely that no part name
  is live, and carry the absence of such pairs as their condition `Separate`.
* **Long MIME names.** The encoder bounds the data and the number of formats;
  the decoder also bounds each MIME name by 64 MiB. A snapshot round-trips if and
  only if its names are within that bound (`ClipboardCodec.SnapshotRoundTripIff`);
  with a payload limit of at most 64 MiB it always does.
* **Successful records.** `record` may succeed without retaining anything: with
  everything else pinned the newcomer is itself evicted
  (`ClipboardHistory.RecordedAndForgotten`; `ClipboardHistory.RecordedIsRetainedIff`
  says exactly when it stays).

Two more observations. An idle peer answers a stray Cancel with a Cancel, so two
idle peers echo one for as long as their connection lasts
(`IdleEcho.EchoNeverDies`). And the comment at
`crates/clipboard/src/cipher.rs:83-85` asks only that lanes sharing a session
use distinct ids, but ids 128 or more below an accepted one are refused for good
(`SessionCipher.DistantLaneIsShutOut`). In both cases, and where
`crates/clipboard/src/engine.rs:60-61` says that a selection is recorded whether
or not it is broadcast while the code records only what it broadcasts, the code is
followed.

## Reading the model

* Identities and transfer ids are numbers in the order of their bytes.
* Digests, encryption, compression, case folding, path portability and UTF-8
  validity are arbitrary functions. What is used of them is stated where it is
  used: what was sealed opens, what was deflated inflates.
* A manifest stands for the digest of it that the receive state stores.
* A timeout, a failed send or a crash is a step that may happen at any time.
* Every mouse motion comes with whether it crosses the linked edge.

## Model

| member | source | states |
|---|---|---|
| `TransferCheckpoint.NothingLeftIffTerminal` | apps/desktop/src/file_transfer.rs:659-720 | with at least one file, a valid checkpoint leaves nothing to receive if and only if it is the terminal checkpoint |
| `TransferCheckpoint.PositionFixesCheckpoint` | apps/desktop/src/file_transfer.rs:611-749 | the next position fixes the checkpoint it came from, up to whether a part has been started there |
| `TransferCheckpoint.PositionAfterPrefix` | apps/desktop/src/file_transfer.rs:659-749 | with every file before entry `n` received, the next position is the first byte of the first file from `n` on, or nothing |
| `TransferCheckpoint.RollbackRestartsFile` | apps/desktop/src/file_transfer.rs:738-749 | rolling back before a file makes the first byte of that file the next position |
| `TransferCheckpoint.ChunkAdvancesPosition` | apps/desktop/src/file_transfer.rs:659-736 | the checkpoint recorded for a chunk is valid and moves the next position by exactly the chunk, on to the next file at the end |
| `TransferCheckpoint.ChunkReducesWork` | apps/desktop/src/file_transfer.rs:659-736 | every chunk the part writer takes, the empty chunk of an empty file included, leaves strictly less work |
| `TransferCheckpoint.CheckpointArithmeticFits` | apps/desktop/src/file_transfer.rs:611-749 | within the manifest limits no sum in the checkpoint functions leaves 64 bits and no file index 32 bits |
| `ReceiveDisk.ReconcileEndsInStep` | apps/desktop/src/file_transfer.rs:1531-1615 | from any disk whatever, the sweep succeeds if and only if no directory is named like a file's part, and then ends with verified files before some file, at most a short part there of exactly the checkpoint's length, and nothing live behind it |
| `ReceiveDisk.ReconcileFixesExactlyInStep` | apps/desktop/src/file_transfer.rs:1531-1615 | a disk and checkpoint are in step, with no directory in the way, if and only if the sweep leaves the disk alone and reports that checkpoint |
| `ReceiveDisk.ReconcileIdempotent` | apps/desktop/src/file_transfer.rs:1531-1615 | a second sweep changes nothing and reports the same, whether or not the first one gave up |
| `ReceiveDisk.ReconcileConserves` | apps/desktop/src/file_transfer.rs:1531-1657 | no content is lost or invented: live copies plus quarantined copies of every content are the same before and after |
| `ReceiveDisk.AliasBreaksSweep` | apps/desktop/src/file_transfer.rs:1531-1606 | a manifest that passes validation, with a file named like another file's part, on which the sweep ends out of step |
| `ReceiveDisk.FinishedSurvivesIffNoAlias` | apps/desktop/src/file_transfer.rs:1531-1606 | with no directory in the way, a finished transfer survives the sweep of a retry if and only if no file is named like another file's part |
| `SweepOutcome.SettleJudges` | apps/desktop/src/file_transfer.rs:1560-1603 | a file is passed if and only if its destination, or failing that its part, is the declared file, which then is the destination; otherwise a short part is kept, whatever lay at the destination, and nothing else |
| `SweepOutcome.SweepLeaves` | apps/desktop/src/file_transfer.rs:1537-1606 | told from the names before the sweep: up to where it gives up, matching destinations stay, full matching parts become destinations, the short part of the first file that cannot be passed stays, and nothing else does; what lies behind is untouched |
| `SweepOutcome.SweepResumesAtFirstGap` | apps/desktop/src/file_transfer.rs:1537-1606 | the checkpoint reported is the length of the short part of the first file that cannot be passed, or else the end of the file before it |
| `SweepOutcome.SweepSparesForeign` | apps/desktop/src/file_transfer.rs:1537-1606 | no name but the destinations and parts of the files is touched, whatever the manifest |
| `SweepOutcome.OpeningResumesAtFirstGap` | apps/desktop/src/file_transfer.rs:1284-1355 | a transfer that may be opened resumes at the first file the disk does not already hold, with that file's short part |
| `PartAliases.SweepTrustworthyIff` | apps/desktop/src/file_transfer.rs:1531-1615 | of a manifest that some contents match: every sweep, from every disk, succeeds with checkpoint and disk in step and an open part that is no other file's destination, if and only if no file and no directory is named like a file's part |
| `ReceiveSession.WriterForTracks` | apps/desktop/src/file_transfer.rs:1216-1240 | a part is created exactly where none exists and resumed exactly at its own length, and the writer's hash has seen exactly the part |
| `ReceiveSession.StoreChunkOutcome` | apps/desktop/src/file_transfer.rs:144-202 | of an admitted chunk: the bytes stored are the old part followed by the payload, publication happens only to a free name with matching digest, and a mismatch goes to quarantine; no other file moves |
| `ReceiveSession.ChunkAcknowledgedIff` | apps/desktop/src/file_transfer.rs:1163-1282 | a chunk is acknowledged if and only if it is at the expected position, moves forward, and does not complete a file with the wrong digest |
| `ReceiveSession.ChunkKeepsInStep` | apps/desktop/src/file_transfer.rs:1163-1282 | checkpoint, open writer, disk and persisted record stay in step across every chunk and across the rollback after a mismatch |
| `ReceiveSession.ChunkEffect` | apps/desktop/src/file_transfer.rs:1163-1282 | an acknowledged chunk extends one part by its payload or publishes that file, and leaves every other file and the quarantine alone |
| `ReceiveSession.MismatchRollsBack` | apps/desktop/src/file_transfer.rs:1245-1268 | a chunk refused for its content puts the session back before its file |
| `ReceiveSession.ChunkMakesProgress` | apps/desktop/src/file_transfer.rs:1163-1282 | every acknowledged chunk leaves strictly less to receive |
| `ReceiveSession.ChunkNeverTouchesAFinal` | apps/desktop/src/file_transfer.rs:1163-1282 | in any state and for any chunk, an existing destination keeps its content |
| `ReceiveSession.PrepareSucceedsIff` | apps/desktop/src/file_transfer.rs:1284-1355 | opening succeeds if and only if the directory is new or records this manifest, no file lies where a directory has to be created, and no directory is named like a file's part; the completeness checks after the sweep never fail; the session starts in step with the record persisted |
| `ReceiveSession.PrepareKeepsDelivered` | apps/desktop/src/file_transfer.rs:1284-1355 | reopening a delivered transfer leaves its disk alone and keeps its completion mark |
| `ReceiveSession.FinishAcknowledgedIff` | apps/desktop/src/file_transfer.rs:1119-1148 | the terminal acknowledgement is given if and only if the byte count is right and every file is delivered; completion is then on record |
| `Receiver.ReceiveRoot.ReconcileReceiveCheckpoint` | apps/desktop/src/file_transfer.rs:1531-1615 | the in-place sweep over files, quarantine, gap flag and checkpoint, with its early exit, computes the sweep the results above are about |
| `Receiver.ReceiveRoot.PrepareReceiveSession` | apps/desktop/src/file_transfer.rs:1284-1355 | opening, with the creation of directories and its early exits, computes the modelled opening of the directory and a fresh session |
| `Receiver.InboundSession.WriteToDisk` | apps/desktop/src/file_transfer.rs:1216-1262 | creating or resuming the writer, appending and finalizing computes the modelled storing of the chunk |
| `Receiver.InboundSession.ReceiveChunk` | apps/desktop/src/file_transfer.rs:1163-1282 | the chunk handler's updates of session, disk and record are those of the modelled chunk step |
| `Receiver.InboundSession.AcceptCompletion` | apps/desktop/src/file_transfer.rs:1119-1148 | taking the completion claim computes the modelled finish |
| `TransferProtocol.QueueRemovedOnlyWhenDelivered` | apps/desktop/src/file_transfer.rs:751-990 | over every run of both peers, with lost and reordered messages, disconnection, timeouts, crashes that tear the disk, changing sources and retries, the queue record goes only when the receiver holds every file with its declared length and digest and has recorded completion |
| `TransferProtocol.OpenSessionsStayInStep` | apps/desktop/src/file_transfer.rs:1051-1161 | over every such run, an open session's checkpoint, writer, disk and record agree |
| `TransferProtocol.SenderStepSound` | apps/desktop/src/file_transfer.rs:751-990 | no sender step breaks the invariant of the two peers |
| `TransferProtocol.ReceiverStepSound` | apps/desktop/src/file_transfer.rs:1051-1161 | no receiver step breaks the invariant of the two peers |
| `TransferLockstep.AttemptOpens` | apps/desktop/src/file_transfer.rs:751-834 | an undisturbed offer of a transfer that may be opened is accepted with exactly the checkpoint the sweep reports, and the sender starts streaming from it |
| `TransferLockstep.OutgoingIsAdmitted` | apps/desktop/src/file_transfer.rs:834-912 | whatever the sender produces next is at the position the receiver expects, contiguous, and final exactly at the end of the file |
| `TransferLockstep.ChunkRoundTrip` | apps/desktop/src/file_transfer.rs:880-930 | chunk, checkpoint and acknowledgement take four exchanges and leave both peers agreeing again |
| `TransferLockstep.RefusalDiscardsPart` | apps/desktop/src/file_transfer.rs:1245-1268 | a part that does not continue to the declared file is refused at its last chunk, discarded, and the next attempt starts from an honest disk |
| `TransferLockstep.UndisturbedDelivers` | apps/desktop/src/file_transfer.rs:751-990 | from whatever earlier attempts left, an undisturbed connection delivers with at most two offers if the transfer may be opened and no finished file is empty, and with one if the part resumed continues to the declared file |
| `TransferLockstep.EmptyChunkRefused` | apps/desktop/src/file_transfer.rs:1163-1214 | the receiver never admits a finished empty file again |
| `TransferLockstep.FinishedEmptyFileIsFatal` | apps/desktop/src/file_transfer.rs:227-250 | once the checkpoint resumed from lies at or behind an empty file, every attempt is refused, for ever |
| `TransferLockstep.NeverOpens` | apps/desktop/src/file_transfer.rs:1284-1320 | a transfer whose directory has no record, or has a file or directory in the way, is turned away at every attempt, for ever |
| `TransferLockstep.DeliversIff` | apps/desktop/src/file_transfer.rs:751-989 | with intact sources, an undisturbed connection and no entry named like the record, from whatever earlier attempts left, the transfer is eventually acknowledged if and only if its directory is new or has a record, no file or directory is in the way, and no empty file lies at or before the checkpoint resumed from; when acknowledged, it is delivered and on record |
| `TransferLockstep.FirstAttemptDeliversIff` | apps/desktop/src/file_transfer.rs:751-990 | with no entry named like the record, a first attempt is delivered if and only if no directory is named like a file's part |
| `TransferFailures.PartDirectoryIsNeverDelivered` | apps/desktop/src/file_transfer.rs:1318-1320 | a file `a` beside a directory `a.part` is refused at every attempt |
| `TransferFailures.RecordlessRootIsFatal` | apps/desktop/src/file_transfer.rs:1303-1346 | a receiver that dies between creating the directory and recording anything refuses the transfer ever after |
| `TransferFailures.EmptyFileIsNeverPassed` | apps/desktop/src/file_transfer.rs:227-250 | a run from the start that loses its connection once after an empty file and is refused for ever after |
| `TransferFailures.AcknowledgedTransferLost` | apps/desktop/src/file_transfer.rs:1531-1606 | an undisturbed run from the start in which a transfer with a file named like a later file's part is acknowledged, recorded as complete and unqueued without its first file |
| `AcknowledgedFiles.AcknowledgedIsHeld` | apps/desktop/src/file_transfer.rs:1051-1161 | over every run of a manifest in which each file comes before a file named like its part, whenever the receiver acknowledges the transfer every declared file is there with its declared content and completion is on record |
| `AliasOrder.HeldIffOwnersFirst` | apps/desktop/src/file_transfer.rs:1051-1355 | of a manifest with contents, no directory named like a part, no empty file and no chain of such names: over every run the receiver holds every file whenever it acknowledges, if and only if every file comes before a file named like its part |
| `AliasOrder.TargetFirstIsLost` | apps/desktop/src/file_transfer.rs:1531-1606 | for every such manifest with a file listed before the owner of its name, a run that ends acknowledged without that file |
| `ChainedParts.ChainIsNeverAcknowledged` | apps/desktop/src/file_transfer.rs:1163-1282 | a chain of part names in the wrong order that no run acknowledges |
| `RecordFile.RunOnDiskIsRun` | apps/desktop/src/file_transfer.rs:1407-1412 | with no entry named like the record, every run on the directory as it is, the record among the files, is the run with the record apart |
| `RecordFile.QueueRemovedOnDisk` | apps/desktop/src/file_transfer.rs:751-990 | on the directory as it is, over every run, the queue record goes only when every file is held and completion is on record |
| `RecordFile.RecordNameIsNeverDelivered` | apps/desktop/src/file_transfer.rs:1500-1529 | a transfer with a file or directory named like the record keeps its queue record over every run in which no crash tears the disk |
| `RecordFile.DeliversOnDiskIff` | apps/desktop/src/file_transfer.rs:751-1355 | on the directory as it is, with nothing under the part name of the record, an undisturbed transfer is eventually acknowledged if and only if no entry is named like the record, it can be opened, and no empty file lies at or before the checkpoint resumed from |
| `RecordFile.FirstAttemptOnDiskIff` | apps/desktop/src/file_transfer.rs:751-1355 | on the directory as it is, a first attempt is delivered if and only if no directory is named like a file's part and no entry like the record |
| `TransferBothWays.BothRecordsSafe` | apps/desktop/src/file_transfer.rs:354-1161 | over every run of two peers that each have a transfer queued for the other, offer, collide, refuse and receive one thing at a time, either queue record goes only when the other peer holds every file of it and has recorded completion |
| `TransferBothWays.StepSound` | apps/desktop/src/file_transfer.rs:410-990 | no step of either peer breaks the invariant of both transfers |
| `BothDelivered.OfferAnsweredIff` | apps/desktop/src/file_transfer.rs:410-460 | a listening receiver opens a session if and only if policy and permit admit the offer and the transfer may be opened; an offer refused by policy or permit is answered with Reject and leaves store and phase alone, one that cannot be opened with Cancel |
| `BothDelivered.PeerAnswersIff` | apps/desktop/src/file_transfer.rs:410-805 | the same for a peer that may have its own offer out: that one gives way exactly to an offer that policy admits and that wins the collision; an unwelcome offer is answered with Reject and changes nothing |
| `BothDelivered.SenderGoesOnIff` | apps/desktop/src/file_transfer.rs:806-990 | a waiting sender goes on if and only if it gets what it waits for, keeps its record and rests when rejected or cancelled, and hangs up on anything else |
| `BothDelivered.SessionGoesOnIff` | apps/desktop/src/file_transfer.rs:1051-1161 | a receiving session outlives a message if and only if that is another offer, a chunk that is taken, or the acknowledgement waited for |
| `BothDelivered.SilenceEndsSession` | apps/desktop/src/file_transfer.rs:1051-1161 | a session without progress is given up with whatever it has stored kept, and told to the peer with a Cancel unless the connection goes |
| `BothDelivered.TickCarried` | apps/desktop/src/file_transfer.rs:354-1161 | every exchange of an undisturbed transfer is a step of the two-way system that leaves the other transfer alone |
| `BothDelivered.BothDeliver` | apps/desktop/src/file_transfer.rs:354-1161 | two peers at rest, each with a transfer that its own undisturbed course delivers, have a run after which both queue records are gone and both peers hold everything and have recorded it |
| `BothDelivered.BothFirstAttemptsDeliver` | apps/desktop/src/file_transfer.rs:354-1161 | from the start, both of two transfers without a directory named like a part are delivered |
| `OfferCollision.CollisionOrderIsStrictTotal` | apps/desktop/src/file_transfer.rs:1030-1034 | the collision key comparison is a strict total order on transfers of different sender or id |
| `OfferCollision.StepStaysReachable` | apps/desktop/src/file_transfer.rs:761-832 | every step of either peer keeps the pair in one of the consistent exchanges, whichever offer would win |
| `OfferCollision.QuiescentMeansOneTransfer` | apps/desktop/src/file_transfer.rs:761-832 | over every interleaving the peers never both send or both receive, and with empty channels either neither has offered or one sends and the other receives that very transfer |
| `OfferCollision.CollisionWinnerSends` | apps/desktop/src/file_transfer.rs:761-832 | when both have offered, the winner of the comparison is the one that ends up sending |
| `OfferCollision.ExchangeTerminates` | apps/desktop/src/file_transfer.rs:761-832 | every step that changes anything lowers a bounded potential, so the exchange of offers ends |
| `IdleEcho.EchoNeverDies` | apps/desktop/src/file_transfer.rs:460-495 | while both peers are idle the number of answerable messages in flight never changes: a stray message is echoed for as long as the connection lasts |
| `SourceTree.WalkIgnoresListing` | apps/desktop/src/file_transfer.rs:1786-1882 | the walk of a tree, its refusals included, does not depend on the order in which directories list their children |
| `SourceTree.WalkKeepsPolicy` | apps/desktop/src/file_transfer.rs:1786-1882 | a successful walk keeps caps, exact total, case-distinct paths and ancestors-first, adds its own entry first and only paths below it after |
| `SourceListing.WholeListsTree` | apps/desktop/src/file_transfer.rs:1786-1882 | a directory's entry followed by the listings of its children is a list with exactly one entry for every list of names that leads to a node, with the joined paths, and a file's length and digest |
| `SourceListing.ListingsAgree` | apps/desktop/src/file_transfer.rs:1786-1882 | a tree has one such list, up to order |
| `QueuedContents.WalkAddsTheTree` | apps/desktop/src/file_transfer.rs:1786-1882 | a walk succeeds if and only if every node is regular, every path portable and new up to case, and count and total within the limits; it then adds one entry for every node reachable by names and no other |
| `QueuedContents.QueuesTheTreesIff` | apps/desktop/src/file_transfer.rs:1681-1763 | a transfer is queued if and only if the limits are usable, every chosen path resolves, no base names agree up to case and the nodes of all trees fit together; its entries are then exactly one for every node below every chosen path |
| `QueuedContents.EveryNodeIsQueued` | apps/desktop/src/file_transfer.rs:1681-1763 | nothing below a chosen path is left out of a queued transfer |
| `SourceTree.ResolveRootsIff` | apps/desktop/src/file_transfer.rs:1704-1729 | the chosen paths resolve if and only if each is a regular file or directory with a portable name and no two base names agree up to case |
| `SourceTree.QueueIsCanonical` | apps/desktop/src/file_transfer.rs:1681-1763 | neither the order of the chosen paths nor of directory listings changes whether a transfer is queued or what is queued |
| `SourceTree.QueuedPassesPolicy` | apps/desktop/src/file_transfer.rs:560-609 | everything queued passes the receiver's structural policy under the same limits, with exact total and one root per chosen path |
| `SourceTree.RecordRebuildsItself` | apps/desktop/src/file_transfer.rs:2025-2069 | over an unchanged tree, listed in any order, rebuilding a record from its own roots reproduces it, so every record built is accepted when read back |
| `QueuedContents.AcceptedRecordIsCurrent` | apps/desktop/src/file_transfer.rs:2025-2069 | a record that is accepted when read back lists exactly the nodes that now lie below its roots, with their exact total, and passes the policy |
| `SourceOrder.QueuedOwnersFirst` | apps/desktop/src/file_transfer.rs:1730-1747 | in everything queued, a file is listed before an entry named like its part |
| `QueuedManifest.OfferedIsWellFormed` | crates/streaming/src/file_transfer_types.rs:176-226 | every manifest that can be offered has distinct paths, an exact total and sizes within the limits |
| `QueuedManifest.QueuedIsOffered` | apps/desktop/src/file_transfer.rs:521-558 | whatever can be queued can be offered: digests present, paths valid and distinct, the total as recorded |
| `QueuedManifest.QueuedIsHeldWhenAcknowledged` | apps/desktop/src/file_transfer.rs:1681-1763 | from chosen paths to held files: over every run, whatever the sender queued is held by the receiver whenever it acknowledges |
| `QueuedManifest.EveryChosenFileArrives` | apps/desktop/src/file_transfer.rs:1681-1763 | over every run, when the receiver acknowledges a queued transfer, every file below every chosen path is at its relative path there, with its length and digest |
| `SourceTree.SourceWalk.CollectSourceEntries` | apps/desktop/src/file_transfer.rs:1786-1882 | the recursive walk that grows entries, folded paths and total in place computes the modelled walk |
| `SourceTree.ValidateManifestPolicy` | apps/desktop/src/file_transfer.rs:560-609 | the loop with its two growing sets accepts exactly the manifests within caps whose every path is portable, new up to case, and after all its ancestors |
| `SessionArbitration.AttachedEndsAgree` | apps/desktop/src/peer_session.rs:124-240 | over every run with any number of links, when both ends are attached to links neither has closed, it is the same link |
| `SessionArbitration.FollowerIsRemembered` | apps/desktop/src/peer_session.rs:124-240 | while the follower is attached to a link, the authority owns its lease for that very link or has closed it |
| `SessionEstablishment.FansOutIff` | apps/desktop/src/peer_session.rs:146-240 | the authority begins a session if and only if the answer it waits for is AcceptAck, the follower if and only if sending its AcceptAck succeeds, with every lane live |
| `SessionEstablishment.TakesLeaseIff` | apps/desktop/src/peer_session.rs:146-230 | the authority takes its lease if and only if it decides on a fresh link with the peer free, the follower if and only if the first message of one is Accept with the peer free |
| `SessionEstablishment.GivesLeaseBackIff` | apps/desktop/src/peer_session.rs:146-500 | a lease is given back if and only if its failed link has been closed or every lane of its session is gone |
| `SessionEstablishment.StartsClosingIff` | apps/desktop/src/peer_session.rs:146-230 | an end that owns its lease starts closing its link if and only if a send fails, its wait for an answer ends, or the answer is not AcceptAck |
| `SessionEstablishment.TurnsAwayIff` | apps/desktop/src/peer_session.rs:146-230 | an end without a lease gives a link up if and only if it has to refuse the peer, or, as the follower, is refused or waits in vain |
| `SessionEstablishment.ConnectAttachesIff` | apps/desktop/src/peer_session.rs:124-240 | from every state, a newly dialled link whose exchange is undisturbed ends with both ends attached to it and every lane live if and only if neither end held a session; otherwise it is closed at both ends and both leases are as before |
| `SessionEstablishment.TearDownReleases` | apps/desktop/src/peer_session.rs:384-500 | after every run, an attached end whose lanes are dropped and counted closes its link and gives its lease back, and nothing else moves |
| `SessionEstablishment.ReconnectsAfterTearDown` | apps/desktop/src/peer_session.rs:124-500 | after every run, when both ends of an attached link have dropped their lanes, the next undisturbed exchange attaches both again |
| `SessionArbitration.LanesNeverOverlap` | apps/desktop/src/peer_session.rs:324-382 | over every run, while a lane of one session is undropped no other session of that end has lanes, and the peer's lease is held |
| `SessionArbitration.CompletionAlwaysFits` | apps/desktop/src/peer_session.rs:486-500 | while a lane is undropped there is room for its completion signal |
| `SessionArbitration.DrainedSessionCanClose` | apps/desktop/src/peer_session.rs:384-411 | once all lanes are dropped and all signals taken the monitor has counted every lane |
| `SessionArbitration.LeaseFollowsLink` | apps/desktop/src/peer_session.rs:84-114 | every step keeps the peer active exactly while one link holds its lease, and never two |
| `SessionArbitration.DecideAsAuthority` | apps/desktop/src/peer_session.rs:146-184 | with the arbiter's set of active peers, the authority's decision is the modelled one, its flag is the peer's place in the set, and other peers are left alone |
| `SessionArbitration.FollowAuthority` | apps/desktop/src/peer_session.rs:204-224 | the same for the follower's answer |
| `SessionArbitration.CloseAndDrop` | apps/desktop/src/peer_session.rs:106-114 | closing a link that failed takes the peer out of the set as modelled |
| `LaneRouting.LanesSeeTheirArrivals` | apps/desktop/src/peer_session.rs:413-475 | what a lane has taken followed by its queue is the in-order subsequence of the routed arrivals of its kinds; no queue exceeds 512; while open nothing is missing |
| `LaneRouting.LanesPartition` | apps/desktop/src/peer_session.rs:413-475 | an envelope is seen by the lane its kind is registered for and by no other |
| `LaneRouting.OpenIff` | apps/desktop/src/peer_session.rs:415-475 | a session is open if and only if the link has not failed and no arrival found its lane gone or with 512 messages waiting; a kind no lane is registered for closes nothing |
| `LaneRouting.LaneTakesNext` | apps/desktop/src/peer_session.rs:415-500 | a lane that is still there takes the next of its arrivals whenever there is one it has not taken |
| `LaneRouting.LaneRouter.RouteInbound` | apps/desktop/src/peer_session.rs:413-475 | the routing loop over arriving envelopes ends in the modelled session |
| `ConflictResolver.StampOrderIsStrictTotal` | crates/clipboard/src/conflict.rs:35-43 | the stamp comparison is a strict total order |
| `ConflictResolver.InboundRepresents` | crates/clipboard/src/conflict.rs:137-160 | after receiving in any order and with repeats, a resolver holds the newest of everything it has minted or seen |
| `ConflictResolver.MintedRepresents` | crates/clipboard/src/conflict.rs:105-130 | a minted stamp is newer than everything minted or seen before, and is what is held next |
| `ConflictResolver.MintsIff` | crates/clipboard/src/conflict.rs:105-130 | a change is stamped if and only if its content is not held and the clock can move, with this device, the present time and the least later sequence number not before that time |
| `ConflictResolver.AppliesIffContentChanges` | crates/clipboard/src/conflict.rs:137-160 | an update is applied if and only if it changes the content held, is stale if and only if a newer other content is held, and moves the clock up to it |
| `ConflictResolver.HeldStampNeverRegresses` | crates/clipboard/src/conflict.rs:105-160 | the held stamp never goes back and the clock never goes back or wraps |
| `ConflictResolver.ExhaustionIsFinal` | crates/clipboard/src/conflict.rs:105-130 | a new copy is refused for exhaustion exactly at the largest clock value, and a refusal changes nothing |
| `ConflictResolver.ConflictResolver.LocalChange` | crates/clipboard/src/conflict.rs:105-130 | the in-place update computes the modelled local change |
| `ConflictResolver.ConflictResolver.Inbound` | crates/clipboard/src/conflict.rs:137-160 | the in-place update computes the modelled inbound decision |
| `ClipboardNetwork.DevicesConverge` | crates/clipboard/src/engine.rs:65-112 | over every run of any number of devices, two that have taken in every broadcast hold the same selection and show it unless a copy is pending |
| `ClipboardNetwork.StampsAreUnique` | crates/clipboard/src/conflict.rs:105-130 | over every run no stamp is carried by two contents and each belongs to its minting device |
| `ClipboardNetwork.NoPingPong` | crates/clipboard/src/engine.rs:65-112 | over every run no device broadcasts more often than its user copied |
| `ClipboardNetwork.QuietNetworkStopsBroadcasting` | crates/clipboard/src/engine.rs:65-112 | once users stop copying, each device broadcasts at most the one copy still pending |
| `ClipboardNetwork.PollBroadcastsIff` | crates/clipboard/src/engine.rs:65-81 | a poll broadcasts if and only if a copy is pending, nothing refuses it and the clock lasts, and it is then the copied content and pending no more |
| `ClipboardNetwork.DeliveryIsTakenIn` | crates/clipboard/src/engine.rs:90-112 | a broadcast taken in is seen, and the pasteboard changes only to its content, whenever the content held does |
| `ClipboardNetwork.DeliveredIsSeen` | crates/clipboard/src/engine.rs:90-112 | over every run, delivering what was sent makes it seen, so devices can always come to the state in which they agree |
| `ClipboardNetwork.ClipboardEngine.Poll` | crates/clipboard/src/engine.rs:65-81 | polling the pasteboard updates resolver and engine as the modelled device does and yields the update to broadcast, if any |
| `ClipboardNetwork.ClipboardEngine.Apply` | crates/clipboard/src/engine.rs:90-112 | taking in a broadcast updates resolver and pasteboard as the modelled device does, and reports whether it was applied |
| `ClipboardHistory.HistoryBoundedAndDistinct` | crates/clipboard/src/history.rs:126-239 | after every sequence of operations the length is within capacity and fingerprints are distinct |
| `ClipboardHistory.EvictionFindsAVictim` | crates/clipboard/src/history.rs:227-239 | an insertion evicts at most one entry and always finds it, so the arm that gives up is never reached |
| `ClipboardHistory.PinnedLeavesOnlyByRemove` | crates/clipboard/src/history.rs:126-239 | a pinned entry stays through every operation but its own removal, and stays pinned through all of those but its own unpinning |
| `ClipboardHistory.RecordedIsRetainedIff` | crates/clipboard/src/history.rs:126-168 | a successful record is retained if and only if the content was there, there is room, or an older unpinned entry can give way |
| `ClipboardHistory.RecordedAndForgotten` | crates/clipboard/src/history.rs:126-168 | a full history with its only entry pinned, on which a record succeeds and changes nothing |
| `ClipboardHistory.HistoryIsMostRecent` | crates/clipboard/src/history.rs:126-239 | with only records, the history is exactly the capacity-many most recently accepted distinct contents, newest first |
| `ClipboardHistory.RecordedHeadsIff` | crates/clipboard/src/history.rs:126-168 | with room for it, a selection heads the history after being recorded if and only if it is not empty, not concealed unless those are kept, and not too large; refused, it changes nothing |
| `ClipboardHistory.RemoveLeavesOthers` | crates/clipboard/src/history.rs:180-191 | removing takes out the entry with that content and leaves the others in order |
| `ClipboardHistory.PinningSetsPin` | crates/clipboard/src/history.rs:170-225 | pinning and unpinning set the pin of the entry with that content and change nothing else |
| `ClipboardHistory.History.RecordSnapshot` | crates/clipboard/src/history.rs:126-168 | the in-place record computes the modelled one, refusals included |
| `ClipboardHistory.History.Evict` | crates/clipboard/src/history.rs:227-239 | the eviction loop computes the modelled eviction |
| `ClipboardTimeline.EveryEntryRestorableOnItsOrigin` | crates/clipboard/src/timeline.rs:98-202 | after every sequence of operations the index has rows for exactly the retained entries, without repeats, and every entry can be restored on its origin |
| `ClipboardTimeline.RestorableIffEntitled` | crates/clipboard/src/timeline.rs:98-202 | after every sequence of operations a device may restore a content if and only if it is retained and the device is its last origin, was trusted when it was last recorded and new entries are shared, or has been shared with since |
| `ClipboardTimeline.SharedClipboardTimeline.RecordFrom` | crates/clipboard/src/timeline.rs:98-115 | recording with its index updates computes the modelled step |
| `ClipboardTimeline.SharedClipboardTimeline.ShareWith` | crates/clipboard/src/timeline.rs:117-127 | sharing with a device computes the modelled step |
| `ClipboardTimeline.DedupDevices` | crates/clipboard/src/timeline.rs:211-216 | the loop keeps the first occurrence of every device, in order |
| `ClipboardContent.CanonicalFormIsCanonical` | crates/clipboard/src/content.rs:172-180 | a built snapshot is in strictly ascending MIME order and holds, for every MIME given, its first representation and nothing else |
| `ClipboardContent.CanonicalFormIsUnique` | crates/clipboard/src/content.rs:172-180 | there is only one such snapshot for a list of representations |
| `ClipboardContent.CanonicalFormOfCanonical` | crates/clipboard/src/content.rs:172-180 | building a snapshot from a list changes nothing if and only if the list is canonical |
| `ClipboardContent.OrderIndependent` | crates/clipboard/src/content.rs:163-180 | with one representation per MIME, the order in which a platform lists them does not matter |
| `ClipboardContent.NewSnapshot` | crates/clipboard/src/content.rs:174-180 | stable sort followed by dropping consecutive repeats computes the canonical form |
| `ClipboardCodec.ReadFieldInverts` | crates/clipboard/src/content.rs:347-356 | a length-prefixed field is read exactly from the bytes it is written as, and from no others |
| `ClipboardCodec.DecodeListInverts` | crates/clipboard/src/content.rs:266-344 | a list of representations is decoded from exactly the bytes that encode it, wherever the decoder's bounds hold |
| `ClipboardCodec.SnapshotRoundTripIff` | crates/clipboard/src/content.rs:266-344 | an encoded snapshot decodes to itself if and only if no MIME name exceeds the decoder's field bound, and is refused otherwise |
| `ClipboardCodec.LongNameIsRefused` | crates/clipboard/src/content.rs:266-356 | a snapshot with one valid MIME name of 64 MiB and one byte encodes, and its encoding is refused |
| `ClipboardCodec.DecodedIsSound` | crates/clipboard/src/content.rs:311-344 | whatever bytes arrive, an accepted snapshot is canonical, within every bound, and decodes to itself when encoded again |
| `ClipboardCodec.AcceptedBytesAreCanonicalIff` | crates/clipboard/src/content.rs:266-344 | accepted bytes are the encoding of what they decode to if and only if their representations came in canonical order |
| `ClipboardCodec.EncodeIsInjective` | crates/clipboard/src/content.rs:266-299 | two lists with one encoding are one list |
| `ClipboardCodec.UpdateDecodeInverts` | crates/clipboard/src/sync.rs:67-113 | bytes decode to an update if and only if the update encodes to those bytes |
| `ClipboardCodec.EncodeSnapshot` | crates/clipboard/src/content.rs:266-299 | the buffer loop computes the modelled encoding, refusals included |
| `ClipboardCodec.DecodeSnapshot` | crates/clipboard/src/content.rs:311-344 | the cursor loop computes the modelled decoding, refusals included |
| `ClipboardCodec.ReadUpdate` | crates/clipboard/src/sync.rs:92-112 | the cursor steps compute the modelled decoding of an update |
| `ClipboardCodec.WriteUpdate` | crates/clipboard/src/sync.rs:72-87 | the buffer steps compute the modelled encoding of an update |
| `SessionCipher.WindowRefinesSet` | crates/crypto/src/session.rs:171-207 | the 128-bit window decides exactly as the set of all accepted ids would |
| `SessionCipher.SessionAcceptsIff` | crates/crypto/src/session.rs:149-207 | over any run of ids, one is accepted if and only if it is new and less than 128 below every id accepted so far |
| `SessionCipher.NoReplay` | crates/crypto/src/session.rs:149-207 | no id is accepted twice |
| `SessionCipher.AscendingAllAccepted` | crates/crypto/src/session.rs:149-207 | ids arriving in ascending order are all accepted |
| `SessionCipher.DistantLaneIsShutOut` | crates/clipboard/src/cipher.rs:81-92 | an id 128 or more below an accepted one is refused for good, so lanes sharing a session need near, not only distinct, ids |
| `SessionCipher.SealedOpensIff` | crates/clipboard/src/cipher.rs:103-131 | what was sealed opens to itself if and only if its id is new to the window; a refusal changes nothing |
| `SessionCipher.IdsNeverReused` | crates/clipboard/src/cipher.rs:104-117 | over any run of sealing attempts, failures included, the ids sent strictly increase |
| `SessionCipher.SessionClipboardCipher.Mark` | crates/crypto/src/session.rs:176-207 | the in-place shift and mark of the word computes the modelled verdict and window |
| `SessionCipher.SessionClipboardCipher.OpenNext` | crates/clipboard/src/cipher.rs:119-131 | opening computes the modelled frame check, decryption and replay verdict |
| `SessionCipher.SessionClipboardCipher.SealNext` | crates/clipboard/src/cipher.rs:104-117 | sealing advances the counter as modelled and stops at its end |
| `ClipboardSync.OutboundMovesResolverIffSent` | crates/clipboard/src/sync.rs:171-216 | the selection and clock move if and only if an update is sent, and then to exactly what was sent; ids are never given back |
| `ClipboardEmission.EncodesIff` | crates/clipboard/src/content.rs:266-299 | a snapshot encodes if and only if it has at most 32 formats and 64 MiB of data and every length fits 32 bits, to exactly its length in bytes |
| `ClipboardEmission.SentIffEmittable` | crates/clipboard/src/sync.rs:171-216 | a copy is sent if and only if it is neither concealed nor held, encodes within the payload limit, gets through compressor and cipher within it, and ids and clock last; it is passed over without error if and only if concealed or held |
| `ClipboardEmission.SentUpdateIs` | crates/clipboard/src/sync.rs:197-216 | what is sent is stamped with this device, the present time and the next sequence number, and carries the sealed bytes behind their id |
| `ClipboardEmission.LinkSendsIff` | crates/clipboard/src/sync.rs:171-248 | over every run of a link, the copy at any point is sent if and only if it meets that condition then |
| `ClipboardEmission.EveryChangeIsSent` | crates/clipboard/src/sync.rs:171-248 | over any run of copies within the limits, exactly those that change what is held are sent, in order, and with none lost exactly those reach the other pasteboard |
| `ClipboardEmission.DialogueSendsIff` | crates/clipboard/src/sync.rs:171-248 | over every run between two machines, a copy on either goes on its wire if and only if it meets that condition there |
| `ClipboardSync.EmittedAcceptedIff` | crates/clipboard/src/sync.rs:171-248 | under one limit, an emitted update is accepted if and only if the snapshot's names are within the decoder's bound, and what is resolved is then the very snapshot copied |
| `ClipboardSync.FreshReceiverApplies` | crates/clipboard/src/sync.rs:72-248 | with a limit of at most 64 MiB, whatever is emitted, encoded, decoded and given to a fresh receiver yields the snapshot |
| `ClipboardSync.ReplayIsRefused` | crates/clipboard/src/sync.rs:223-248 | a payload opened once is refused ever after and changes nothing |
| `ClipboardSync.LinkDeliversFaithfully` | crates/clipboard/src/sync.rs:171-248 | over any run of copies with any updates lost, no delivered update is refused and the receiver holds the last one delivered; with none lost it applied exactly what was sent, in order |
| `ClipboardDialogue.DialogueConverges` | crates/clipboard/src/sync.rs:120-249 | over any run of copies on both machines with any updates lost, no update that arrives is refused, each machine holds the newest of all it made and took in, and whenever nothing was lost and nothing is on the wire both hold the same |
| `ClipboardSync.ClipboardSync.Outbound` | crates/clipboard/src/sync.rs:171-216 | the imperative outbound pipeline computes the modelled one |
| `ClipboardSync.ClipboardSync.Inbound` | crates/clipboard/src/sync.rs:223-248 | the imperative inbound pipeline computes the modelled one |
| `InputHandoff.HeldIsWhatIsDown` | apps/desktop/src/input_session.rs:505-521 | the held list contains each input once, and exactly those whose last press or release was a press |
| `InputHandoff.ReleasesEmpty` | apps/desktop/src/input_session.rs:496-502 | sending the releases of everything held leaves nothing pressed |
| `InputHandoff.RouteTracks` | apps/desktop/src/input_session.rs:427-490 | whatever is routed, the record of held inputs stays equal to what the peer has been told, and is empty while local |
| `InputForwarding.StepSendsOwed` | apps/desktop/src/input_session.rs:427-490 | what one wait of the loop sends is what it owes: the releases of everything left down when focus leaves, the entry point when it arrives, what was captured while it stays; focus moves with the crossings, the emergency key, timeouts and the topology |
| `InputForwarding.SendsWhatIsOwed` | apps/desktop/src/input_session.rs:712-833 | over every run the peer is sent a prefix of what it is owed, and all of it when the sends get through |
| `InputForwarding.CapturedIsForwarded` | apps/desktop/src/input_session.rs:427-490 | over every run whose sends get through, the presses, scrolls and motions sent are exactly those captured while focus is remote, the emergency key apart, and one for every entry, once each and in order |
| `InputHandoff.HandoffIsSafe` | apps/desktop/src/input_session.rs:712-833 | at every head of the loop over every run, the cursor is hidden if and only if focus is remote and what was sent leaves exactly the held inputs pressed; however the loop ends the cursor is visible |
| `InputHandoff.CleanEndingReleasesAll` | apps/desktop/src/input_session.rs:755-760 | a shutdown or capture error whose cleanup gets through leaves nothing pressed on the peer |
| `InputHandoff.EmergencyStopBringsCursorHome` | apps/desktop/src/input_session.rs:427-432 | the emergency key always leaves the cursor visible and focus local, even when telling the peer fails |
| `InputHandoff.InjectUntilShutdown` | apps/desktop/src/input_session.rs:890-987 | however the receiver ends, what stays down is exactly what was held and whose release the platform refused; an error is reported if and only if there is one or the loop failed |
| `InputHandoff.InjectArrivals` | apps/desktop/src/input_session.rs:899-948 | the receiving loop injects in order up to its first terminal event and its record is the replay of what was injected |
| `InputHandoff.InjectedIffTaken` | apps/desktop/src/input_session.rs:899-948 | until an arrival ends the loop, exactly those the platform takes are injected, in order |
| `InputHandoff.EndsWellIff` | apps/desktop/src/input_session.rs:899-948 | the loop ends without an error if and only if the first arrival that ends it is a shutdown or a closed connection |
| `InputHandoff.ReleaseHeld` | apps/desktop/src/input_session.rs:950-978 | the cleanup releases everything held but what the platform refuses |
| `InputHandoff.TrackHeldInput` | apps/desktop/src/input_session.rs:505-521 | the search from the back computes the modelled update of the held list |
| `InputHandoff.ForwardUntilShutdown` | apps/desktop/src/input_session.rs:712-833 | the loop over the share and guard objects computes the modelled loop and keeps its invariant |
| `InputHandoff.LinkedScreenInputShare.RouteEvents` | apps/desktop/src/input_session.rs:427-490 | routing in place computes the modelled routing |
| `InputHandoff.LinkedScreenInputShare.DrainHeldReleases` | apps/desktop/src/input_session.rs:496-502 | draining empties the record and yields the releases, latest press first |

## Left out

- The directories on disk are those the manifest declares; one left or created under a transfer by anyone else is not represented. The policy rejects a manifest that does not declare the parents of its entries, so no other directory is created.
- File-system detail: symlinks, permissions, fsync, canonicalization, temporary names and the TOML form of records. Renames and record replacements are atomic. A crash inside an operation is the step `CrashTearsDisk`, which may leave any files at all except that a delivered transfer stays delivered.
- An entry named like the receiver's record is excluded by `Separate` everywhere but in `RecordFile`, which says what becomes of it; what a crash may plant under the part name of that entry is not covered there.
- Destinations on a file system that does not tell upper from lower case: names that differ are different files here.
- The message loops of the sender and of the receiver are step functions on values, since each waits for the other between any two of its steps; only the receiver's handlers are objects updated in place.
- ClipboardNetwork.ClipboardEngine.Poll: the history an engine keeps of what it broadcasts is modelled separately from the network of engines.
- ClipboardNetwork.ClipboardEngine.Apply: the history an engine keeps of what it applies is modelled separately from the network of engines.
- TransferProtocol.QueueRemovedOnlyWhenDelivered: speaks of one transfer with one sending side; `TransferBothWays.BothRecordsSafe` has one in each direction. Further transfers, and permits shared with further peers beyond whether one is free, are not represented. Its condition `Separate` excludes manifests with part aliases, for which `TransferFailures.AcknowledgedTransferLost` shows it fails and `AcknowledgedFiles.AcknowledgedIsHeld` says what remains.
- AcknowledgedFiles.AcknowledgedIsHeld: one direction, for every manifest; the other is `AliasOrder.HeldIffOwnersFirst`.
- AliasOrder.HeldIffOwnersFirst: leaves out manifests with an empty file and chains in which one file is named like a part and owner of one; for those the order alone does not decide.
- SourceOrder.QueuedOwnersFirst: assumes of case folding that it puts a name before the same name followed by `.part`.
- TransferBothWays.BothRecordsSafe: each peer queues one transfer.
- BothDelivered.BothDeliver: the run carries out one transfer after the other on one connection; which courses with a collision of the two offers deliver both is not said beyond `OfferCollision`.
- TransferLockstep.DeliversIff: assumes a receiver whose policy and permit admit the offer; it speaks of a connection with no timeouts; under timeouts messages of an earlier attempt can still arrive on the same connection, and no progress is claimed.
- SessionArbitration.AttachedEndsAgree: speaks of one pair of identities; connections without an authenticated identity or to oneself are closed before arbitration and not represented, nor is the delay that prefers one dialling direction.
- LaneRouting.LaneRouter.RouteInbound: no lane takes or stops while this loop runs; the step system of `LaneRouting.LanesSeeTheirArrivals` has them do so between any two arrivals.
- LaneRouting.LanesSeeTheirArrivals: outbound sequencing, which all lanes share, is not represented.
- ClipboardNetwork.NoPingPong: one resolver per device and pasteboards that are read and written faithfully; the desktop program makes one engine per link, which is a relay between separate resolvers.
- ClipboardHistory.HistoryIsMostRecent: contents are identified with their 64-bit fingerprints.
- ClipboardDialogue.DialogueConverges: updates of one direction arrive in order, as on one connection; what the pasteboards show is not represented.
- ClipboardSync.EmittedAcceptedIff: the choice of compression algorithm and the recognition of concealed content are arbitrary functions of the snapshot.
- SourceTree.QueuedPassesPolicy: the portability rules for paths are an arbitrary predicate, the same on both machines; the two identity comparisons of the policy are not represented, and files do not change between being listed and being hashed.
- SourceTree.ValidateManifestPolicy: the comparisons with the sender's and the target's identity are not represented.
- SourceTree.RecordRebuildsItself: the schema, file name and identifier checks of a stored record are not represented.
- InputHandoff.HandoffIsSafe: the mouse geometry, message ids and validation of event values are not represented; a send or an injection that fails has no effect on the peer or the platform.
- InputHandoff.InjectUntilShutdown: a receiver whose task is aborted performs no cleanup at all; only its own endings are covered.
- Pairing, discovery, plugins, telemetry, storage, the graphical and command-line programs, and the transports below a connection are not part of this model.
- Search, best-text selection and the configuration checks of the clipboard and file-transfer crates are single-branch functions and would add only easy members.
