# RelayDesk, modelled and proved in Dafny

RelayDesk is a LAN chat and file-transfer program. This project models its resumable transfer protocol,
the bookkeeping around it, the wire framing, peer discovery and the command line of its update helper, and
proves what they promise. `dafny verify dfyconfig.toml` checks everything.

## How the project is laid out

- **Transfer protocol.** `FolderPaths` (path texts of folder entries), `FolderWalk` (which texts are accepted
  and where they lead), `TransferSource` and `TransferProducer` (the sender's frame producer, also as a class
  with the closure's variables), `TransferReceiver` (payloads on disk), `FolderWrites` (what any one chunk
  writes), `TransferProgress` (what one honest chunk does to a folder, file by file), `ResumeProtocol` (sender
  and receiver as one state machine over any number of sessions, with its invariant), `ResumeSessions`
  (exactly when a session completes), `ResumeAttachment` (exactly when a completed folder is whole),
  `ResumeSafety` (conditions under which every completed payload is), `ResumeHazards` (concrete runs that show
  the conditions are needed).
- **Receiver bookkeeping.** `IncomingTransfers` (all pending transfers of a device, its frame handler with the
  catch handler, closed streams), `ReceiverViews` (the receiver of the protocol is this bookkeeping seen at one
  transfer), `TransferStates`, `TransferRecords`, `TransferQueues`, `TransferSteps`, `QueueRuns` and
  `ProgressCoalescing` (records, update queues, drains, the user's steps).
- **Wire.** `PeerFrameCodec` (24-byte header, codec), `FrameStream` (the write and read loops).
- **Discovery.** `DiscoveryWorker` (threads and shutdown), `BroadcastRate` (how much it sends at most),
  `DiscoveryAnswers` (what it does send), `ProfileStore`, `UtcTimestamp`, `TextOrder`, `PeerList`.
- **Others.** `WindowsCommandLine`, `AppUpdateOptions`, `ScreenShake`, `Prelude`.

What the source changes step by step is a class or a method with loops here, proved equal to a function of
the old state; the theorems are about those functions and about runs built from them. Choices of the
environment (read sizes, cut connections, clocks, iteration order of hash maps, which thread moves next,
whether a file can be opened) are parameters or events, so every theorem over runs covers all of them.

## What was found

Some promises hold only under a condition that the source does not check. The condition is proved exactly in
each case; `ResumeHazards` shows runs of the protocol that violate it:

- The resume handshake can desynchronise. A session that is not cut completes if and only if the size measured
  when its offer arrives (0 without a pending entry) is the offset it starts at, and the file at that place holds
  exactly the bytes before it (`ResumeSessions.UncutSessionCompletesIff`). It fails when the stream of *another*
  transfer closes before the new offer, because that removes every pending entry; when the sender starts over on
  its own while an entry with bytes is pending; and when a folder was invited before its size was known and the
  receiver was restarted, because the accepted offset is the size on disk only if the recorded size is not smaller
  (`ResumeSessions.AcceptedOffsetIff`, and `ResumeHazards` for a run of each).
- A folder can complete with a file cut short, because only sizes are compared: a session that starts over and
  stops in the middle of a file while a later one is on disk leaves a gap, and the next session starts behind it
  (`ResumeHazards.StaleRestartCorrupts`). Such a stop leaves a beginning of the stream if and only if the entry
  had just been finished or nothing beyond it was on disk (`ResumeSafety.SentAgainIsSettledIff`). On every run a
  completed folder is whole if and only if the entries its session skipped were whole when it was attached
  (`ResumeAttachment.CompletedIsWholeIff`), and always if each session is taken up at the size on disk
  (`ResumeSafety.CountedIsWhole`).
- A transfer offer whose text header does not parse stops the stream reader, so frames after it are never
  delivered (`FrameStream.WholeStreamArrives`).
- A pending entry is lost without any update if the application's paths cannot be determined just when the
  entry is to be cancelled or failed (`IncomingTransfers.EntryLeavesWithOneVerdict`).
- The sender prints entry paths of any length, the receiver refuses texts above 32 KiB
  (`FolderPaths.RelocatesEntry`).
- The lazy profile store agrees with an eager one, whatever a device announces at given times after the last
  one stored, if and only if these times strictly increase; equal times part them too
  (`ProfileStore.LazyAgreesIff`).
- Updates of two targets pass through the coalescing progress queue as through a plain one if and only if they
  find different parts or one of size 0; otherwise an older size can be left behind
  (`ProgressCoalescing.TargetsDrainAlikeIff`).
- Timestamps may contain a minus sign. A timestamp is ordered with every other one as its time if and only if it
  has digits only and no year, hour, minute or second of zero, which could also be written with a minus sign
  (`UtcTimestamp.ChronologicalIff`).
- A NUL in an argument or in the program path cannot reach the started process (`WindowsCommandLine.ReaderUndoesPrinter`).

## Model

| member | source | states |
|---|---|---|
| FolderPaths.RelocatesEntry | src/main/app_runtime.cpp:1520-1547 | the text printed for a folder entry resolves to the target root followed by exactly the entry's components, unless it exceeds the receiver's 32 KiB limit, and then it is refused |
| FolderPaths.DistinctTargets | src/main/app_runtime.cpp:1645-1666 | two different entries never resolve to the same target |
| FolderPaths.AcceptedStaysInside | src/main/app_runtime.cpp:959-988 | for any text a peer sends, an accepted one resolves to an extension of the target root by plain names, and acceptance is characterised for texts without a root |
| FolderWalk.SpelledIsRead | src/main/app_runtime.cpp:1655-1656 | a text is read as the names it is spelled from, whatever runs of slashes and backslashes are between them |
| FolderWalk.RelativeTextLeads | src/main/app_runtime.cpp:1645-1666 | a text without drive, share or slash in front is accepted if and only if it is not too long, walking its names from the target root never leads out and ends with a name, and no name of the way has a colon; it is resolved to where the walk ends |
| FolderWalk.SlashedTextLeads | src/main/app_runtime.cpp:1645-1666 | a text with a slash in front is walked from the root of the drive and accepted if and only if the walk leads into the target root |
| FolderWalk.ShareLeads | src/main/app_runtime.cpp:1645-1666 | a text that names a share is accepted if and only if it is the share of the target root and nothing more |
| FolderWalk.DriveIsRefused | src/main/app_runtime.cpp:1645-1666 | a text that starts with a drive is refused |
| TransferSource.FolderPackageEntriesTotalFileSize | src/main/app_runtime.cpp:1611-1621 | the loop's sum is the length of the byte stream of the folder |
| TransferSource.FlattenSlice | src/main/app_runtime.cpp:2338-2350 | entry i occupies the stream from the sum of the sizes before it on |
| TransferProducer.Seek | src/main/app_runtime.cpp:2338-2350 | the seek loop ends where prefix sum plus file offset equals the resume offset, with the file offset below the entry size or the index at the end |
| TransferProducer.SeekPositionUnique | src/main/app_runtime.cpp:2338-2350 | no other position satisfies the seek condition |
| TransferProducer.NextStep | src/main/app_runtime.cpp:2357-2465 | after the offer every call emits a chunk of the next entry or the complete frame, lowers the progress measure, never reports a changed source, and emits nothing after the complete frame |
| TransferProducer.ChunkIsStreamSlice | src/main/app_runtime.cpp:2407-2426 | a chunk's body is the slice of the source's stream at the chunk's transfer offset |
| TransferProducer.TailCarriesRest | src/main/app_runtime.cpp:2357-2465 | contiguous chunks that end at the total size carry exactly the remaining bytes |
| TransferProducer.SessionIsStream | src/main/app_runtime.cpp:2266-2465 | for all read sizes and every resume offset, one past the end counting as 0, an uncut session is one offer, contiguous chunks whose bodies are exactly the rest of the source, and one complete frame |
| TransferProducer.FrameProducer.constructor | src/main/app_runtime.cpp:2312-2353 | the captured variables start at the seek position; an offset past the end restarts at 0 |
| TransferProducer.FrameProducer.NextFolderChunk | src/main/app_runtime.cpp:2367-2437 | the folder loop skips finished files and yields the specified chunk or leaves the cursor at the end |
| TransferProducer.FrameProducer.NextFrame | src/main/app_runtime.cpp:2357-2465 | one call of the closure changes the captured variables and yields the frame the specification says |
| TransferReceiver.ExistingIncomingFolderPayloadSize | src/main/app_runtime.cpp:1668-1688 | the early-stopping sum over files is the smaller of the tree's size and the expected size |
| TransferReceiver.AcceptedPlainStarts | src/main/app_runtime.cpp:1100-1118 | an accepted interrupted plain transfer counts a payload that fits in full; an oversized one counts as 0 and is gone; a new one starts from an empty file unless a directory is there |
| TransferReceiver.OfferedPlainStarts | src/main/app_runtime.cpp:6023-6063 | an offer to resume goes on from a plain payload that fits, any other from an empty file; a directory in its place makes it fail |
| TransferReceiver.FolderStarts | src/main/app_runtime.cpp:1668-1688 | a folder transfer, accepted or offered, keeps the folder that is there and counts its files, up to the size of the transfer, only when it resumes |
| FolderWrites.ResolverLeads | src/main/app_runtime.cpp:1645-1666 | a chunk path leads to a place below the target root exactly where its text resolves to |
| FolderWrites.ChunkIsWrittenIff | src/main/app_runtime.cpp:1690-1738 | against any peer, a folder chunk is written if and only if it names an acceptable place with no file on the way, a directory chunk is empty and finds no file, and a file chunk finds no directory and starts at 0 or where the file ends |
| FolderWrites.ChunkIsWritten | src/main/app_runtime.cpp:1690-1738 | a written chunk extends its file, or starts it again from offset 0, makes the directories on the way and changes nothing else |
| FolderWrites.RefusedChunkKeepsFiles | src/main/app_runtime.cpp:1690-1738 | a refused chunk changes no file |
| TransferProgress.RootUnderstands | src/main/app_runtime.cpp:1645-1666 | a target root's resolver gives back every safe entry path within the length limit |
| TransferProgress.FileChunkWritten | src/main/app_runtime.cpp:1716-1737 | a file chunk over beginnings of the entries is written, with the directories above it, exactly if it starts at 0 or where the file ends; then the file is its first bytes up to the chunk's end |
| TransferProgress.FolderChunkWritten | src/main/app_runtime.cpp:1690-1738 | an honest folder chunk is accepted exactly if it fits its file; it changes the number of bytes of that file alone, and every file stays a beginning of its entry |
| TransferProgress.TreeSizeIsSum | src/main/app_runtime.cpp:1668-1688 | over entries of the source alone, the measured size is the sum of the bytes of each entry |
| TransferProgress.RewriteIsPrefixIff | src/main/app_runtime.cpp:1731-1737 | a folder with the first p bytes, sent again up to byte r in entry i, holds a beginning of the stream if and only if p does not reach beyond entry i or r is its end |
| ResumeProtocol.OfferHandled | src/main/app_runtime.cpp:6018-6063 | in every reachable state an offer makes an entry with the offered size and what was measured, 0 without an entry to resume; a folder keeps its files unless a fresh path is taken |
| ResumeProtocol.ResumeRequestHandled | src/main/app_runtime.cpp:6064-6148 | in every reachable state a resume request is answered with exactly one accept, whose offset is the size on disk if an entry or an interrupted part is left, else 0 |
| ResumeProtocol.CutGives | src/main/app_runtime.cpp:5649-5668 | a connection that closes between the offer and the complete frame leaves a transferring part interrupted with the offered size; any other closing changes nothing at the receiver |
| ResumeProtocol.RestartGives | src/main/app_runtime.cpp:550-578 | a restarted receiver finds a transferring part interrupted once its history is loaded; loading it while the transfer is pending changes nothing |
| ResumeProtocol.ChunkTaken | src/main/app_runtime.cpp:6230-6274 | a chunk at the recorded size that fits is written and counted, or written and failed if it exceeds the expected size |
| ResumeProtocol.ChunkRefused | src/main/app_runtime.cpp:6224-6274 | any other chunk of an honest sender ends the entry as failed and changes no file |
| ResumeProtocol.StepKeepsInvariant | src/main/app_runtime.cpp:5910-6330 | every step of sender, receiver and network, with restarts of the receiver and sessions the sender starts on its own, keeps: a file payload is a beginning of the source and as long as recorded, every file of a folder is a beginning of its entry |
| ResumeProtocol.RunKeepsInvariant | src/main/app_runtime.cpp:5910-6330 | the same on every run; a completed file payload is the whole file |
| ResumeSessions.DetachedStays | src/main/app_runtime.cpp:6224-6229 | without a pending entry the rest of a stream changes nothing |
| ResumeSessions.OfferDelivered | src/main/app_runtime.cpp:6023-6063 | after its offer a session is attached exactly if it started at the measured size and the file at that place fits |
| ResumeSessions.GoingOnCompletes | src/main/app_runtime.cpp:6219-6330 | such a session, not cut, completes whatever the read sizes: entries before its place stay as found, those from there on are whole |
| ResumeSessions.OtherwiseFails | src/main/app_runtime.cpp:6230-6233 | any other session has its first frame after the offer refused, the part fails, nothing is completed and no file changes |
| ResumeSessions.UncutSessionCompletesIff | src/main/app_runtime.cpp:5910-6330 | on every run a session that is not cut adds a completed payload if and only if the size measured at its offer is its offset and the place fits; the payload is whole if and only if the skipped entries were, and from offset 0 it is the source tree, empty entries included |
| ResumeSessions.AcceptedOffsetIff | src/main/app_runtime.cpp:4303-4320 | the offset accepted for an interrupted folder is the size on disk if and only if the recorded size, 0 if none, is at least that |
| ResumeSessions.AcceptedSessionCompletesIff | src/main/app_runtime.cpp:4256-4436 | accepted again without disturbance, an interrupted file always completes, a folder if and only if its recorded size is at least the size on disk and the place fits |
| ResumeSessions.ResumeRequestAnswered | src/main/app_runtime.cpp:6064-6148 | on every run a resume request appends exactly one accept: the size of the payload on disk if an entry or an interrupted part is found, else 0 |
| ResumeSessions.ResumedSessionCompletesIff | src/main/app_runtime.cpp:6064-6148 | the session started from that accept, undisturbed, completes always for a file and for a folder if and only if the place fits |
| ResumeSessions.LostAccept | src/main/app_runtime.cpp:4379-4425 | an accept frame that cannot be sent leaves a transferring part interrupted if it was a resumption and failed otherwise; only that accept is gone, entry, payload and final states stay |
| ResumeSafety.CleanStepKeeps | src/main/app_runtime.cpp:5910-6330 | a step that ends a session of a folder only at a clean position keeps: the folder holds exactly a beginning of the stream, partly sent again during a session |
| ResumeSafety.CompletedIsWhole | src/main/app_runtime.cpp:6275-6330 | on every run every completed file is whole; every completed folder holds every non-empty file with exactly its bytes if no session stopped in the middle of a file while a later one was on disk |
| ResumeSafety.CountedIsWhole | src/main/app_runtime.cpp:6219-6330 | on every run in which each session is attached at the size on disk, however often it is cut after any frame, every completed payload is whole |
| ResumeSafety.StartsCountedIsCounting | src/main/app_runtime.cpp:6230-6274 | then the receiver's count stays the size on disk through every chunk that is taken and at every step of the run |
| ResumeSafety.OfferStartsCountedIff | src/main/app_runtime.cpp:6018-6063 | an offer attaches a session at the size on disk unless it goes on, from 0, without a pending entry over an interrupted payload that is not empty |
| ResumeSafety.AcceptedAfterCleanRunIff | src/main/app_runtime.cpp:4256-4436 | after every clean run an interrupted folder that is accepted again, undisturbed, completes if and only if the recorded size is at least the size on disk |
| ResumeSafety.ResumedAfterCleanRunCompletes | src/main/app_runtime.cpp:6064-6148 | after every clean run, while no session of a folder is attached, a resume request, answered and followed without disturbance, completes the transfer |
| ResumeAttachment.CompletedIsWholeIff | src/main/app_runtime.cpp:6219-6330 | on every run, with any cuts, a completed folder is whole if and only if the entries before its session's place were whole when the session was last attached |
| ResumeSafety.CompletedBelowRootIsWhole | src/main/app_runtime.cpp:1645-1666 | the same as CompletedIsWhole and CountedIsWhole through the receiver's own path resolution, for safe entry paths of at most 32 KiB |
| ResumeSafety.SentAgainIsSettledIff | src/main/app_runtime.cpp:4605-4675 | the sender starts over an interrupted folder and is cut in entry i: it holds a beginning of the stream again if and only if entry i is finished or nothing beyond it had been on disk |
| ResumeHazards.OtherStreamBreaksResume | src/main/app_runtime.cpp:5649-5668 | a run in which another stream's closure between accept and offer fails a half-received file |
| ResumeHazards.SenderBreaksResume | src/main/app_runtime.cpp:4605-4675 | a run in which the sender starts over before the accept frame arrives and the session fails on the pending entry |
| ResumeHazards.ZeroSizeBreaksResume | src/main/skiaui_app.cpp:1223-1249 | a run with a folder invited without its size and a restarted receiver, after which an undisturbed session cannot complete |
| ResumeHazards.StaleRestartCorrupts | src/main/app_runtime.cpp:1668-1688 | a run from the invitation on after which an undisturbed session completes a folder with a file cut short |
| ReceiverViews.OffersAgree | src/main/app_runtime.cpp:5910-6148 | an offer changes entry and payload of the protocol's receiver as it changes those of the device's bookkeeping |
| ReceiverViews.ChunksAgree | src/main/app_runtime.cpp:6219-6274 | so does a chunk, catch handler included |
| ReceiverViews.CompletesAgree | src/main/app_runtime.cpp:6275-6330 | so does a complete frame, and the payload counts as completed exactly when Completed is queued |
| ReceiverViews.AcceptsAgree | src/main/app_runtime.cpp:4256-4376 | so does an accepted invitation |
| ReceiverViews.ClosingsAgree | src/main/app_runtime.cpp:5649-5668 | so does a closed stream |
| IncomingTransfers.EntryLeavesWithOneVerdict | src/main/app_runtime.cpp:5910-6330 | in one step a transfer gets a new queued update exactly if its entry leaves, is not withdrawn by the user and does not vanish silently; all new updates are Completed, Failed, Cancelled or Interrupted |
| IncomingTransfers.FrameAccounts | src/main/app_runtime.cpp:5235-5247 | the same for a frame: handler and catch handler together |
| IncomingTransfers.LedgerBalances | src/main/app_runtime.cpp:5579-5668 | over every run, entries made for a transfer equal its verdicts plus withdrawals plus silent losses plus one if it is still pending |
| IncomingTransfers.NoneVanishesNoneTwice | src/main/app_runtime.cpp:5579-5668 | while the application's paths can be had, an entry leaves exactly when its one update is queued |
| IncomingTransfers.InterruptionsNameEachOnce | src/main/app_runtime.cpp:5649-5668 | a closed stream gives each pending transfer exactly one Interrupted update, in any iteration order |
| IncomingTransfers.FlatInvariantOverRun | src/main/app_runtime.cpp:1100-1118 | against arbitrary frames, with distinct payload paths, a plain transfer's recorded size always equals its payload's length and never exceeds the expected size |
| IncomingTransfers.WrongOffsetWritesNothing | src/main/app_runtime.cpp:6230-6233 | a chunk at another offset leaves every payload unchanged and fails its transfer |
| IncomingTransfers.CompletedOnlyWhenSizesAgree | src/main/app_runtime.cpp:6289-6330 | on every run with distinct payload paths, every Completed in the queue was put there by a complete frame when received, expected and announced sizes were equal, and a plain payload then had that length |
| IncomingTransfers.EveryVerdictHasItsCause | src/main/app_runtime.cpp:5649-6330 | on every run with distinct payload paths every queued update has its cause: Cancelled a cancel frame with a reason other than "transfer_failed", Failed one with that reason or a frame whose handler threw, Interrupted a closed stream, Completed agreeing sizes; it carries the size and path of its entry |
| IncomingTransfers.EveryStateUpdateHasItsCause | src/main/app_runtime.cpp:5640-6217 | the same for updates of the state alone: Transferring an offer that was taken, Failed one that threw without an entry or a cancel frame with that reason, Cancelled any other cancel frame |
| IncomingTransfers.CancelIsReported | src/main/app_runtime.cpp:6173-6217 | conversely every cancel frame is reported by one update, Failed for the reason "transfer_failed" and Cancelled otherwise, unless its entry is gone and the paths cannot be had |
| IncomingTransfers.OfferIsReported | src/main/app_runtime.cpp:5910-6148 | every offer is reported as Transferring if it is taken, and as Failed, with its entry if it had one, if its handler throws |
| IncomingTransfers.OfferMakesEntry | src/main/app_runtime.cpp:5910-6063 | an offer is for the payload of its entry, else of the interrupted part whose path is recorded, else a new one, and goes on from what is there exactly if there is an entry or it asks to resume an interrupted part |
| IncomingTransfers.AcceptMakesEntry | src/main/app_runtime.cpp:4256-4376 | an accepted invitation makes an entry at its path that goes on from an interrupted payload that fits |
| IncomingTransfers.IncomingTransferRegistry.HandleOffer | src/main/app_runtime.cpp:5910-6148 | the offer case as imperative code yields the specified state and result |
| IncomingTransfers.IncomingTransferRegistry.HandleChunk | src/main/app_runtime.cpp:6219-6274 | the chunk case yields the specified state: a body past the expected size is written before it throws |
| IncomingTransfers.IncomingTransferRegistry.HandleCancel | src/main/app_runtime.cpp:6173-6217 | the cancel case: the entry is erased first, the reason decides between Failed and Cancelled |
| IncomingTransfers.IncomingTransferRegistry.OnFrameReceived | src/main/app_runtime.cpp:5235-5247 | the frame callback yields the specified state, catch handler included |
| IncomingTransfers.IncomingTransferRegistry.InterruptPendingIncomingTransfers | src/main/app_runtime.cpp:5649-5668 | the loop over the hash map interrupts every entry, in the order it reports |
| TransferRecords.ApplyTransferPartUpdate | src/main/app_runtime.cpp:591-638 | the loop changes the first matching file part, or returns false if none matches or its state refuses |
| TransferRecords.ApplyTransferPartStateUpdate | src/main/app_runtime.cpp:640-676 | the same for a change of state alone |
| TransferRecords.ApplyTransferPartProgressUpdate | src/main/app_runtime.cpp:678-708 | the same for progress, whatever the state |
| TransferRecords.RecoverInterruptedTransferParts | src/main/app_runtime.cpp:550-578 | exactly the transferring file parts without an active transfer become interrupted, and the result says whether any did |
| TransferRecords.FinalStatesRefuseOthers | src/main/app_runtime.cpp:294-330 | Completed, Cancelled and Rejected are exactly the states that no update replaces by another |
| TransferStates.FollowersIff | src/main/app_runtime.cpp:294-330 | which states may follow which: a failed part may be sent again, completed, cancelled or rejected, an interrupted one may also fail, a completed, cancelled or rejected one stays so |
| TransferRecords.PartUpdateKeepsWithinSize | src/main/app_runtime.cpp:358-398 | exactly when a whole part update leaves progress within the new size |
| TransferRecords.StateUpdateGives | src/main/app_runtime.cpp:640-676 | a state update that is applied changes the first matching part alone: Completed sets the progress to a known size, Pending, Offered and Failed to Transferring to 0, Transferring without progress to 0, any other keeps it |
| TransferRecords.PartUpdateGives | src/main/app_runtime.cpp:591-638 | a part update that is applied also records its size and path; the progress follows the same rules over the new size |
| TransferRecords.ProgressUpdateGives | src/main/app_runtime.cpp:678-708 | a progress update gives the first matching part its progress, cut at a known size, and changes nothing else |
| TransferRecords.RecoveryResumesStranded | src/main/app_runtime.cpp:550-578 | a part in transfer without an active transfer becomes interrupted, every other part stays as it is |
| TransferRecords.HasSendableStateIff | src/main/app_runtime.cpp:736-765 | a request can be sent if and only if the first matching part with a state could be moved to Transferring |
| TransferQueues.DrainKeepsRefused | src/main/app_runtime.cpp:6385-6407 | an atomic drain keeps exactly the updates refused at their turn, each once and in order |
| TransferSteps.QueuedStateGives | src/main/app_runtime.cpp:6642-6660 | a waiting state update is taken if and only if it hits a part whose state may be replaced, and gives that part alone its state and the progress of it |
| TransferSteps.QueuedPartGives | src/main/app_runtime.cpp:6385-6407 | the same for a part update, which also brings name, size, path, id and hash |
| TransferSteps.QueuedProgressGives | src/main/app_runtime.cpp:6686-6706 | a waiting progress update that hits a part is always taken, cut at a known size |
| QueueRuns.DrainAppliesTaken | src/main/app_runtime.cpp:6385-6407 | a drain gives the records that the updates it takes give when they are applied one after the other |
| QueueRuns.PartsAreConserved | src/main/app_runtime.cpp:6337-6407 | on every run the part updates queued are those taken and those still waiting, each as often as it was queued |
| QueueRuns.StatesAreConserved | src/main/app_runtime.cpp:6633-6660 | the same for state updates, those of failed requests included |
| QueueRuns.StepOnProgress | src/main/app_runtime.cpp:6662-6706 | a new progress update replaces the one waiting for its target, and a drain keeps what it does not take |
| TransferQueues.FinalStatesAreAbsorbing | src/main/app_runtime.cpp:303-330 | on every run of queued updates, drains, accept, reject, cancel, recovery and outgoing requests, a part that is completed, cancelled or rejected stays so |
| TransferQueues.RequestKeepsFinal | src/main/app_runtime.cpp:6436-6528 | an outgoing request, with its progress update, changes no final state |
| TransferSteps.AcceptGives | src/main/app_runtime.cpp:4256-4376 | an incoming invitation that was offered or interrupted and has a name is in transfer after an accept, at the accepted offset and path; any other part stays as it is |
| TransferSteps.RejectGives | src/main/app_runtime.cpp:4677-4764 | only an incoming invitation that was not answered is rejected, and nothing else changes |
| TransferSteps.CancelGives | src/main/app_runtime.cpp:4766-4860 | a running transfer is cancelled by either side, an invitation only by the side that sent it |
| TransferSteps.RecoverGives | src/main/app_runtime.cpp:550-578 | after recovery no part of the record is in transfer without an active transfer, and only those that were have changed |
| TransferSteps.SendRequestGives | src/main/app_runtime.cpp:6436-6528 | a request moves the first matching part to Transferring at the offset the receiver named if and only if it has a receiver and its part can go on; without a receiver the part is reported as failed |
| TransferQueues.ProgressStaysWithinSize | src/main/app_runtime.cpp:348-356 | while sizes are fixed, no recorded progress ever exceeds its size on any run |
| TransferQueues.UpdateQueues.EnqueueTransferProgressUpdate | src/main/app_runtime.cpp:6662-6684 | the first waiting update of the same target takes the new size, or the update is appended |
| TransferQueues.UpdateQueues.DrainPendingTransferUpdates | src/main/app_runtime.cpp:6385-6407 | swap, apply in order and put back what was refused is the specified drain |
| TransferQueues.UpdateQueues.DrainPendingTransferStateUpdates | src/main/app_runtime.cpp:6642-6660 | the same for state updates |
| TransferQueues.UpdateQueues.DrainPendingTransferProgressUpdates | src/main/app_runtime.cpp:6686-6706 | the same for progress updates |
| ProgressCoalescing.OneEntryPerTarget | src/main/app_runtime.cpp:767-773 | the coalescing queue never holds two entries for one target |
| ProgressCoalescing.CompactAppliesAll | src/main/app_runtime.cpp:6662-6684 | applying the coalesced queue leaves the records as if every update had been applied in arrival order, if different targets find different parts or one of size 0 |
| ProgressCoalescing.CompactDrains | src/main/app_runtime.cpp:6686-6706 | under the same condition, draining the coalesced and the plain queue gives the same records, and what stays queued agrees again |
| ProgressCoalescing.CoalescingIsUnobservable | src/main/app_runtime.cpp:6662-6706 | on every run with well-formed targets the records are those of a queue that keeps every update |
| ProgressCoalescing.SharedPartShowsCoalescing | src/main/app_runtime.cpp:678-708 | for any two targets of one part that is not of size 0, the sizes 1, 0, 1 leave 0 with the coalescing queue and 1 with a plain one |
| ProgressCoalescing.TargetsDrainAlikeIff | src/main/app_runtime.cpp:6662-6706 | for updates of two different targets both queues drain alike in every order and with all sizes if and only if the targets find different parts or one of size 0 |
| PeerFrameCodec.EncodePeerFrameHeader | src/net/peer_frame.cpp:238-257 | filling the header array at a moving offset gives the specified 24 bytes; the errors are exactly those of the validation |
| PeerFrameCodec.EncodePeerFrame | src/net/peer_frame.cpp:224-236 | the encoding is header, text header and body, or the specified error |
| PeerFrameCodec.AppendUint64 | src/net/peer_frame.cpp:54-62 | the shift loop writes the eight bytes most significant first and nothing else |
| PeerFrameCodec.ReadUint64 | src/net/peer_frame.cpp:79-86 | the accumulator loop reads the value those eight bytes stand for |
| PeerFrameCodec.FrameTypeFromWireValue | src/net/peer_frame.cpp:186-222 | exactly the values 1 to 15 are frame types, and the inverse mapping gives the value back |
| PeerFrameCodec.NumbersCountTypes | src/net/peer_frame.h:16-32 | the wire numbers count the frame types from 1 on in their declared order |
| PeerFrameCodec.DecodeEncode | src/net/peer_frame.cpp:224-322 | decoding an encoded frame gives the frame back |
| PeerFrameCodec.EncodeDecode | src/net/peer_frame.cpp:224-322 | accepted bytes are exactly the encoding of the frame read from them, and that frame may be encoded |
| PeerFrameCodec.AcceptedIff | src/net/peer_frame.cpp:259-322 | bytes are accepted if and only if they have the wire form, told byte by byte with its magic, version, limits and lengths, and give the frame that stands in them |
| PeerFrameCodec.EncodedIff | src/net/peer_frame.cpp:224-257 | a frame is encoded unless its version, text header or body exceeds the limits, and its encoding stands for it byte by byte |
| FrameStream.FrameReceiver.ReceiveFrames | src/net/boost_asio_tcp_peer_transport.cpp:254-314 | the read loop delivers the specified frames and reports the specified ending |
| FrameStream.SendFramesTo | src/net/boost_asio_tcp_peer_transport.cpp:195-222 | the write loop puts the encodings of all frames before the first refused one on the wire and counts them |
| FrameStream.WholeFramesIsMaximal | src/net/boost_asio_tcp_peer_transport.cpp:264-283 | the number of frames wholly contained in a prefix is the largest whose encodings fit |
| FrameStream.PrefixDeliversWholeFrames | src/net/boost_asio_tcp_peer_transport.cpp:254-314 | for every prefix of the encodings of any frames exactly the frames wholly in it are delivered, in order, up to the first offer that does not parse; a transfer closed before completion is reported exactly if the delivered frames leave one open |
| FrameStream.ReportIff | src/net/boost_asio_tcp_peer_transport.cpp:254-314 | for any bytes a closure before completion is reported if and only if some delivered frame is a chunk or an offer not only asking to resume with no complete or cancel frame after it; an end of the stream between frames is otherwise not reported |
| FrameStream.WholeStreamArrives | src/net/boost_asio_tcp_peer_transport.cpp:286-294 | an uncut stream arrives whole exactly if every offer in it parses |
| DiscoveryWorker.Worker.constructor | src/net/discovery_worker.cpp:142-147 | the schedule starts at once with the startup burst, or one interval later without it |
| DiscoveryWorker.Worker.ConsumeRequestedBroadcast | src/net/discovery_worker.cpp:224-238 | takes one requested broadcast if one is due and schedules the next |
| DiscoveryWorker.Worker.RequestFastBroadcast | src/net/discovery_worker.cpp:108-125 | restarts the burst unless broadcasting is off or the worker is stopping |
| DiscoveryWorker.Worker.ShouldReplyToHello | src/net/discovery_worker.cpp:240-260 | permits a reply and records it, at most once a minute per key |
| DiscoveryWorker.Worker.BroadcastSent | src/net/discovery_worker.cpp:157-165 | the next broadcast is a startup interval or a normal interval away |
| DiscoveryWorker.QuietAfterStop | src/net/discovery_worker.cpp:72-100 | under every interleaving at most one hello or reply follows the stopping flag, and an offline broadcast is the last thing ever sent |
| DiscoveryWorker.NothingDecidedNothingSent | src/net/discovery_worker.cpp:149-193 | if no send was decided when the flag was set, only the offline broadcast follows |
| DiscoveryWorker.RepliesAreSpaced | src/net/discovery_worker.cpp:240-260 | over a whole run two replies permitted for one key are at least 60 s apart |
| BroadcastRate.SpacingOverRun | src/net/discovery_worker.cpp:149-166 | on every run a scheduled hello comes at least the startup interval after the previous hello while the startup burst lasts and at least the normal interval after it later, and requested ones are at least the startup interval apart unless a request came in between |
| BroadcastRate.ScheduledBound | src/net/discovery_worker.cpp:149-166 | scheduled hellos in a window number at most width / m + 1 |
| BroadcastRate.ConsumedBound | src/net/discovery_worker.cpp:224-238 | requested hellos in a window number at most width / m + 1 plus the requests in it |
| BroadcastRate.HelloRateIsBounded | src/net/discovery_worker.cpp:108-166 | on every run hellos in a window with k requests number at most 2 * width / m + k + 2 |
| DiscoveryAnswers.BurstIsConserved | src/net/discovery_worker.cpp:108-125 | on every run the hellos taken since the last request and those still pending make up one burst, 8 if no startup count is set, and without a request there are none |
| DiscoveryAnswers.RequestIsDueIff | src/net/discovery_worker.cpp:108-125 | a request is due at once with its whole burst if broadcasting is on and the worker not stopping; any other changes nothing |
| DiscoveryAnswers.ScheduledIsDueIff | src/net/discovery_worker.cpp:142-166 | on every run a scheduled hello is due exactly from its time on: the start or one interval later, then one interval after the last hello, the short one until the startup hellos are through |
| DiscoveryAnswers.RequestedIsDueIff | src/net/discovery_worker.cpp:224-238 | on every run a requested hello is due exactly while its burst is not used up, at once after the request and one short interval after the last one taken |
| DiscoveryAnswers.DueIsAnnounced | src/net/discovery_worker.cpp:149-156 | where it chooses, the worker announces a hello exactly if one is due, and takes a requested one from its burst only if no scheduled one is due |
| DiscoveryAnswers.LoopSendsDueHello | src/net/discovery_worker.cpp:149-166 | from the top of the loop, undisturbed, exactly one hello is sent before the poll if any is due and none otherwise |
| DiscoveryAnswers.ReplyIsPermittedIff | src/net/discovery_worker.cpp:240-260 | on every run a reply is permitted, and recorded, if and only if none was permitted for its key within 60 s |
| DiscoveryAnswers.HelloIsAnswered | src/net/discovery_worker.cpp:168-181 | a hello received while nothing stops the worker reaches the limiter, and a permitted reply is sent |
| DiscoveryAnswers.WorkerEnds | src/net/discovery_worker.cpp:148-193 | once it is asked to stop, the worker ends after at most five steps whatever the network does |
| DiscoveryAnswers.StopSaysOffline | src/net/discovery_worker.cpp:72-100 | stopping ends with the offline broadcast exactly if broadcasting is on and the network works |
| DiscoveryAnswers.SilentWithoutBroadcasting | src/net/discovery_worker.cpp:149-260 | without broadcasting the worker never sends anything on any run |
| ProfileStore.MergeObservedAddress | src/net/discovery_peer_profile.cpp:15-31 | the loop computes the merged list; an empty address is refused |
| ProfileStore.MergedAddresses | src/net/discovery_peer_profile.cpp:15-31 | the observed address comes first, the others follow once each, and a list already in that form stays as it is |
| ProfileStore.PeerProfileStore.RemoveStaleProfilesForAnnouncement | src/net/discovery_peer_profile.cpp:108-127 | removes exactly the other devices' profiles with the same host name and address that are not newer |
| ProfileStore.PeerProfileStore.UpsertPeerProfileFromDiscovery | src/net/discovery_peer_profile.cpp:181-222 | creating, ignoring, updating lazily and refusing an empty address as specified |
| ProfileStore.LazyAgreesWithEager | src/net/discovery_peer_profile.cpp:82-97 | for one device with increasing timestamps and no competitor the lazy store agrees with an eager one on everything but the time last seen, and both return the same profile every time |
| ProfileStore.LazyAgreesIff | src/net/discovery_peer_profile.cpp:63-106 | for times after the one stored, the lazy and the eager store agree throughout on everything the device may announce at them, without competitors, if and only if the times strictly increase |
| ProfileStore.UpsertSaves | src/net/discovery_peer_profile.cpp:181-222 | every profile the store writes has a first address that is not empty and repeats none |
| ProfileStore.NewsGives | src/net/discovery_peer_profile.cpp:129-222 | an announcement that is no news returns the known profile unchanged; news gives a profile with the host, name, port, version, capabilities and avatar announced, the observed address first, and the first sighting, unread count and other addresses kept |
| ProfileStore.NewsIsStored | src/net/discovery_peer_profile.cpp:181-222 | the store holds that profile, save that the lazy one may keep the old time last seen |
| ProfileStore.OthersAfter | src/net/discovery_peer_profile.cpp:108-127 | no other profile comes or changes; those under the same host name and address that are not newer go exactly when a profile is written |
| ProfileStore.LastSeenNeverGoesBack | src/net/discovery_peer_profile.cpp:98-106 | in any order of announcements a kept profile's stored time last seen never goes back |
| UtcTimestamp.NextYear | src/core/time.cpp:117-131 | consecutive years start 365 or 366 days apart by the leap-year rule |
| UtcTimestamp.FieldsOrderIsChronological | src/core/time.cpp:99-131 | the order of date and time fields is the order of instants, and an instant has one set of fields |
| UtcTimestamp.TextOrderIsChronological | src/core/time.cpp:99-131 | for digit-only timestamps that parse, comparing the texts compares the instants |
| UtcTimestamp.ChronologicalIff | src/core/time.cpp:13-131 | a timestamp that parses is ordered with every other one as its instant, and equal to none but itself, if and only if it has digits only and year, hour, minute and second are not zero |
| UtcTimestamp.FormatUndoesParse | src/core/time.cpp:79-97 | formatting a parsed timestamp gives the same text if and only if it has digits only and a year from 1970 to 3000 |
| UtcTimestamp.ParseUndoesFormat | src/core/time.cpp:79-131 | parsing a formatted instant gives the instant |
| UtcTimestamp.FormattedTextsAreChronological | src/net/discovery_peer_profile.cpp:57-61 | formatted instants are ordered like their texts, which last-seen comparisons rely on |
| PeerList.BeforeIsTotal | src/main/app_runtime.cpp:192-211 | the five-key comparator never puts two peers before each other and decides between any two device ids |
| PeerList.BeforeIsTransitive | src/main/app_runtime.cpp:192-211 | the comparator is transitive |
| PeerList.SortSorts | src/main/app_runtime.cpp:7128-7136 | sorting keeps the peers and makes the list sorted |
| PeerList.SortedIsDetermined | src/main/app_runtime.cpp:7128-7136 | a sorted list is determined by the peers in it |
| PeerList.InvariantOverRun | src/main/app_runtime.cpp:7010-7162 | after every profile, refresh and conversation ids are unique, the list is sorted and online implies a recorded signal |
| PeerList.StorageGivesInvariant | src/main/app_runtime.cpp:5301-5324 | the list read from storage satisfies the invariant |
| PeerList.AttendedStaysOnline | src/main/app_runtime.cpp:121-126 | a peer with newer announcements at most 90 s before each refresh, no offline notice and no stale removal, is shown online after every event |
| PeerList.RefreshDecides | src/main/app_runtime.cpp:7091-7110 | after a refresh exactly those are online whose last signal is at most 90 s old |
| PeerList.SortedShows | src/main/app_runtime.cpp:192-211 | in a sorted list an earlier peer is online if a later one is, then has the later conversation, the later sign of life, the smaller name shown and the smaller id |
| PeerList.AppliedIsShown | src/main/app_runtime.cpp:7010-7089 | an applied profile is shown with its own fields and its first address, the signal just received and the conversation known, unless it is online news that is not later than what is shown |
| PeerList.OthersAfterApply | src/main/app_runtime.cpp:7010-7030 | of the other peers exactly those of the same host name shown at one of its addresses go |
| PeerList.NewsIsShown | src/main/app_runtime.cpp:6987-7089 | what a device announces of itself is stored and shown, at the address it was last seen at |
| PeerList.RefreshShows | src/main/app_runtime.cpp:7091-7110 | a refresh changes nothing but who is online: those with a signal at most 90 s old |
| PeerList.ConversationIsShown | src/main/app_runtime.cpp:7138-7162 | a later conversation is shown, an earlier one is not, and no other peer changes |
| PeerList.StoredIsShown | src/main/app_runtime.cpp:5301-5324 | every stored profile is shown offline with its latest conversation |
| PeerList.Peers.ApplyPeerProfile | src/main/app_runtime.cpp:7010-7089 | stale removal, ignored news, replacement or addition, and sorting as specified |
| PeerList.Peers.RefreshPeerOnlineStates | src/main/app_runtime.cpp:7091-7110 | the loop sets every flag and sorts only if one changed |
| PeerList.Peers.UpdatePeerLastConversationAt | src/main/app_runtime.cpp:7138-7162 | a later conversation moves the peer, anything else changes nothing |
| WindowsCommandLine.QuoteWindowsCommandLineArgument | src/main/app_runtime.cpp:1246-1270 | the slash-counting loop yields the specified quoted text |
| WindowsCommandLine.MakeWindowsCommandLine | src/main/app_runtime.cpp:1299-1310 | program path and arguments, quoted and separated by one space |
| WindowsCommandLine.PrintedCharacters | src/main/app_runtime.cpp:1246-1310 | a printed value stands between quotes, quotes and trailing backslashes in it get a backslash in front, and arguments follow after one space |
| WindowsCommandLine.ReadQuoted | src/main/app_runtime.cpp:1246-1270 | reading a quoted text by the system's rules gives the value back and leaves the reader outside quotes |
| WindowsCommandLine.ReaderUndoesPrinter | src/main/app_runtime.cpp:1299-1310 | for every program path without a quote and all arguments the started process sees exactly the arguments, if and only if there are none or neither they nor the path hold a NUL |
| AppUpdateOptions.ProcessIdReadsBack | src/main/app_runtime.cpp:1493-1506 | every 32-bit process id printed in decimal is parsed back |
| AppUpdateOptions.ParseAppUpdateApplyOptions | src/main/app_runtime.cpp:2054-2111 | the parsing loop computes the specified options or refuses |
| AppUpdateOptions.ParserUndoesPrinter | src/main/app_runtime.cpp:1475-1491 | printed options are parsed back, all but the helper's own path, if and only if the four paths are normalised and not empty |
| AppUpdateOptions.NumberIsReadIff | src/main/app_runtime.cpp:1493-1506 | a process id is read if and only if the text is spaces, at most one sign and digits of a 32-bit magnitude, to the end |
| AppUpdateOptions.ArgumentsAreAcceptedIff | src/main/app_runtime.cpp:2054-2111 | the parser accepts exactly the mark of the mode followed by pairs of a known key and a readable value, in any order, in which each key occurs and no path comes out empty |
| AppUpdateOptions.AcceptedGive | src/main/app_runtime.cpp:2054-2111 | each option is what the last value of its key means |
| AppUpdateOptions.HelperSeesItsOptions | src/main/skiaui_app.cpp:186-202 | from the launching process to the helper, through quoting and the system's reader, the options come back if and only if their paths are normalised, not empty and, like the helper's path, without a NUL; the helper's path has no quote |
| ScreenShake.TryStartScreenShakeCooldown | src/main/app_runtime.cpp:7294-7322 | the loop drops expired entries and starts a cooldown unless one runs or the map is full |
| ScreenShake.MapStaysSmall | src/main/app_runtime.cpp:7315-7318 | the cooldown map never holds more than 256 entries |
| ScreenShake.AcceptedAreSpaced | src/main/app_runtime.cpp:7294-7322 | on every run accepted shakes of one device are at least the applied interval apart |
| ScreenShake.ToleranceLetsThrough | src/main/app_runtime.cpp:7338-7351 | with equal cooldowns, delays within 500 ms and room in the map, the receiver permits every shake the sender was permitted |
| ScreenShake.ReceivedAreSpaced | src/main/app_runtime.cpp:7338-7351 | the receiver accepts no two shakes of a device closer than its cooldown less 500 ms |
| ScreenShake.ScreenShakes.EnqueueIncoming | src/main/app_runtime.cpp:7353-7372 | a permitted shake is queued unless 32 are waiting; the bounds on maps and queue are kept |

## Left out

Weaker than the source promises, or under a condition of the model:

- ResumeSafety.CompletedIsWhole: for folders the condition on cuts is sufficient, as a later session may also repair an unclean stop; ResumeAttachment.CompletedIsWholeIff is exact. The source does not change while it is sent, its entries name their parent directories and the receiver can resolve their paths; each received chunk is atomic; the accepted part keeps its payload path.
- ResumeSessions.UncutSessionCompletesIff: cancel frames, the user's own withdrawal of a pending transfer and the sender's cancel token are not steps of the two-party machine (cancel frames and withdrawals are steps of `IncomingTransfers`). The sender's own record is not modelled: it may start over, ask to resume or answer an accept frame at any time; when it starts a session, the one before has ended.
- ResumeSessions.AcceptedSessionCompletesIff: about an accept frame that starts a session before anything else happens; UncutSessionCompletesIff covers the rest.
- ResumeSafety.ResumedAfterCleanRunCompletes: a resume request that cuts an attached session of a folder may find its place moved; ResumeSessions.ResumedSessionCompletesIff is exact for every state.
- ReceiverViews.OffersAgree: about one transfer whose payload can be opened and whose history entry names the same part and path.
- TransferProducer.SessionIsStream: the 1 MiB read buffer is any positive read size; the sender's cancel token and unreadable files are not modelled.
- IncomingTransfers.LedgerBalances: a frame with its catch handler is one step; the user's thread cannot run in the middle of one.
- IncomingTransfers.FlatInvariantOverRun: other programs do not change the payloads, and a failed write changes nothing.
- TransferQueues.DrainKeepsRefused: the drain is atomic and no update throws; an update that throws is dropped by the source.
- TransferQueues.ProgressStaysWithinSize: sizes are fixed; the source lets a part update replace the recorded size without cutting the progress, as `TransferRecords.PartUpdateKeepsWithinSize` says exactly.
- ProgressCoalescing.CoalescingIsUnobservable: there is one copy of each record; the pending, the selected and the stored copies are not kept apart.
- BroadcastRate.HelloRateIsBounded: times are those the worker read when it decided; a send may take longer.
- PeerList.InvariantOverRun: the clock is past its epoch, which the source uses as "no signal".
- ScreenShake.ToleranceLetsThrough: about the two limiters; a shake can still be dropped when 32 requests are waiting.
- ProfileStore.LazyAgreesIff: the stored profile has an address and repeats none, as every profile the store writes, and no other profile claims its host name and first address.
- UtcTimestamp.FormatUndoesParse: the Windows conversion, which accepts instants from 1970 to the end of 3000; the POSIX branch accepts more.
- AppUpdateOptions.HelperSeesItsOptions: helper paths with a quote are left out; if a path of the options holds a NUL, making a path absolute must not bring one into it.
- WindowsCommandLine.ReaderUndoesPrinter: program paths with a quote, which Windows does not allow, are left out; the reader follows the documented rules of `CommandLineToArgvW`; the special case of two quotes in a row inside an argument and the limit of 32767 characters are not part of it.

Not modelled:

- The migration of payloads from the old temporary directory, and image transfers whose final name comes from a hash.
- Names, paths and hashes that only travel along in updates, and the delivery state of messages.
- File systems beyond a map from paths to contents: permissions, symbolic links, partial writes, names that differ only in case, payload paths inside another transfer's folder.
- 64-bit overflow of sizes and offsets, and `size_t` checks that no accepted header can reach.
- JSON texts of offers, announcements and accept frames; only whether an offer parses and its resume flag matter to the stream reader.
- Sockets, connection errors before the first byte, the transport's own stopping flag, and a frame callback that throws out of the reader.
- Resending a message and the callback after sending a chat message, which rewrite a record as a whole.
- Unreadable profile files, avatars, unread counters, notifications and everything of the user interface.
- Local-time formatting, identifiers, hashing, downloads and process start.
- Restarting the discovery worker after it has been stopped.
