# Plazma: models of its state machines and codecs

Plazma is a video client (Qt) and its server (userver, ScyllaDB). This project models
the parts of both where the order of small steps decides whether the result is right,
and proves what those parts promise over every run.

- **Download engine** (`PartFile`, `Downloads`, `DownloadsModel`, `DownloadsProofs`,
  `DownloadsRestart`, `DownloadsTheorems`, `DownloadsFrames`, `DownloadsOutcomes`,
  `DownloadsSlots`, `DownloadsCallbacks`, `DownloadsSessions`, `DownloadsForgotten`).
  `DownloadsModel` is a class whose methods update the rows, the disk and the pending
  timers in place; each is proved to compute a function of the old state (`Downloads`),
  and the invariants and theorems are about those functions. The server, the network, the
  disk's short writes, free space and timers answer as they like within what `Legal` says:
  the response head comes before the body, a Range is answered with 206 from its start,
  with 200 from the beginning, or with an error (sections 14.2, 15.3.7 and 15.5.17 of RFC
  9110), and body bytes are those of a resource that does not change. A session starts
  with the list that the last one has left in the settings.
- **Task queue** (`TaskQueue`, `TaskQueueProofs`, `TaskQueueWakeUps`). The critical
  sections are methods of a class; the two threads are a machine that takes them, and the
  signals between them, in any order.
- **Tokens** (`Texts`, `Base64`, `Base64Words`, `Jwt`, `JwtProofs`, `JwtVerdicts`).
  Minting and verifying with any keyed hash of 32 bytes.
- **Upload bodies** (`Multipart`, `MultipartHeaders`, `MultipartProofs`).
- **Playlist store** (`PlaylistTables`, `PlaylistHandlers`, `PlaylistNames`,
  `PlaylistLeaks`, `PlaylistBreaks`, `PlaylistAdds`, `PlaylistHalves`, `PlaylistCounts`,
  `PlaylistLibrary`, `PlaylistRaces`, `PlaylistCovers`, `PlaylistCourses`,
  `PlaylistStore`). Five tables, five handlers, each handler a sequence of single table
  operations that others can interleave with and that may stop anywhere. Run one after
  another they refine a map of playlists. `PlaylistStore` has the handlers as methods on
  five mutable tables.
- **Pages** (`Cursors`, `CursorNumbers`, `Pagination`), the **signal throttle**
  (`SignalThrottle`) and the **article cache** (`ArticlesCache`).

Where a method is said to compute a function, its contract names that function, and the
function's properties are the lemmas listed beside it.

## Where the code does not do what one would expect

The model follows the code.

- A 416 response ends in Failed, not in success: the status is read again from the reply
  (`DownloadsTheorems.HttpErrorsFail`).
- A failed write of the buffered tail is not noticed: the row completes with a short file
  (`DownloadsTheorems.CompletesWholeIff`).
- Backoff delays are 1500 and 3000 ms; the 6 s of the header's comment is never reached.
- Two queued downloads can be given the same destination, because a queued row has no file
  yet (`DownloadsTheorems.StartIsApartIff`); the byte-exact theorems assume fresh paths.
- The list of paused downloads in the settings is not rewritten when one of them is
  cancelled or removed, nor that of completed ones when one is downloaded again. After a
  restart a cancelled download can take over the working file of another one
  (`DownloadsForgotten.CancelledTakesOver`), and a download can be there twice
  (`DownloadsForgotten.DownloadedAgainDoubles`); `DownloadsSessions.CurrentIff` says
  exactly when.
- A wake-up can be lost on the processing side of the task queue in exactly two ways
  (`TaskQueueWakeUps.LosesIff`), both of which happen
  (`TaskQueueWakeUps.SwallowedWakeUpStrands`, `TaskQueueWakeUps.CancelInProcessStrands`).
- The token codec adds zero bytes (`Base64.UrlRoundTrip`), and a phone number that holds
  the expiry key is taken for the expiry (`JwtProofs.TokensReadBackIff`).
- A part name that ends in `filename=` hides the file name
  (`MultipartProofs.PartUnchangedIff`).
- After a failed release a playlist name is not kept "until the next rename" but for ever
  (`PlaylistLeaks.LostForEver`; `PlaylistLeaks.NoneLostIff` says when a name is lost), and
  a membership without an item is not treated as a fresh add
  (`PlaylistRaces.HalfAddedStays`; `PlaylistHalves.MembersAreItemsIff` says when there is
  one).
- Two adds can count as one (`PlaylistRaces.LostUpdate`, and exactly when in
  `PlaylistCounts.CountIsRightIff`), and two handlers on one playlist can revive it
  (`PlaylistRaces.RenameDuringDelete`); exactly which operations break names and
  ownership, whatever overlaps, is `PlaylistBreaks.StepBreaksIff`.
- Prepending and recomputing covers differ when thumbnails repeat
  (`PlaylistCovers.PrependAgreesIff`).
- A throttle that is flushed or cancelled can fire twice within an interval
  (`SignalThrottles.FlushIsNotSpaced`, `SignalThrottles.CancelIsNotSpaced`, and exactly
  when in `SignalThrottles.RunIsSpacedIff`).

## Model

| member | source | states |
|---|---|---|
| `Disks.Opened` | `Plazma/src/storage/part_file.cpp:13-51` | a leftover is kept only if it has at least the floor and less than the known total; otherwise the working file is empty; other paths are untouched |
| `Disks.Written` | `Plazma/src/storage/part_file.cpp:53-76` | the accepted bytes are appended; a short write leaves the counters behind the file |
| `Disks.TruncatedTo0` | `Plazma/src/storage/part_file.cpp:78-91` | the file is emptied unless the resize itself fails; a failed seek empties it without resetting the counters |
| `Disks.Finalized` | `Plazma/src/storage/part_file.cpp:101-128` | the working file takes the place of the destination, or, when the rename fails, neither survives |
| `PartFiles.PartFile.Open` | `Plazma/src/storage/part_file.cpp:13-51` | the object ends with the handle and the disk of `Disks.Opened`, and its contents view agrees |
| `PartFiles.PartFile.Write` | `Plazma/src/storage/part_file.cpp:53-76` | disk and counters are those of `Disks.Written`; the answer says whether all bytes were taken |
| `PartFiles.PartFile.Truncate` | `Plazma/src/storage/part_file.cpp:78-91` | disk and counters are those of `Disks.TruncatedTo0` |
| `PartFiles.PartFile.Flush` | `Plazma/src/storage/part_file.cpp:93-99` | only the flush mark moves |
| `PartFiles.PartFile.Finalize` | `Plazma/src/storage/part_file.cpp:101-128` | disk is that of `Disks.Finalized`; the file is closed |
| `PartFiles.PartFile.Discard` | `Plazma/src/storage/part_file.cpp:130-133` | the working file is closed and gone |
| `DownloadsModels.DownloadsModel.constructor` | `Plazma/src/models/downloads_model.cpp:113-116` | the list starts with the rows of the last session whose files are still there (`Restored`) |
| `DownloadsModels.DownloadsModel.LoadPersisted` | `Plazma/src/models/downloads_model.cpp:1133-1187` | the loops load the completed records, then the paused ones whose working file exists; what a paused row has received is the length of that file |
| `DownloadsModels.DownloadsModel.PurgeStaleCompleted` | `Plazma/src/models/downloads_model.cpp:614-630` | the backward loop erases exactly the completed rows without their file (`PurgeBelow`) |
| `DownloadsModels.DownloadsModel.PausedRecords` | `Plazma/src/models/downloads_model.cpp:1220-1243` | the records written are those of the paused rows, in order |
| `DownloadsModels.DownloadsModel.CountActive` | `Plazma/src/models/downloads_model.cpp:203-209` | the number of Downloading rows |
| `DownloadsModels.DownloadsModel.Find` | `Plazma/src/models/downloads_model.cpp:357-362` | the first row with the id, or -1 |
| `DownloadsModels.DownloadsModel.TeardownTransfer` | `Plazma/src/models/downloads_model.cpp:708-728` | reply and file are dropped; without keep the working file goes too |
| `DownloadsModels.DownloadsModel.CheckDiskBudget` | `Plazma/src/models/downloads_model.cpp:684-706` | the rest of the file and a 64 MiB margin fit, or the size or the free space is unknown |
| `DownloadsModels.DownloadsModel.StartTransfer` | `Plazma/src/models/downloads_model.cpp:730-799` | either the row runs from the end of its working file, or it has failed with the reason of the step that failed; the whole new state is `KickOff` of the old |
| `DownloadsModels.DownloadsModel.FillSlots` | `Plazma/src/models/downloads_model.cpp:663-670` | the slots are filled in list order, `ProcessQueue`; no row is lost |
| `DownloadsModels.DownloadsModel.StartDownload` | `Plazma/src/models/downloads_model.cpp:376-447` | a running or queued row is left alone, a paused one resumed, anything else becomes a fresh queued row at the end (`Start`) |
| `DownloadsModels.DownloadsModel.RetryDownload` | `Plazma/src/models/downloads_model.cpp:471-484` | a row that is neither running nor saved starts again from its own data (`Retry`) |
| `DownloadsModels.DownloadsModel.CancelDownload` | `Plazma/src/models/downloads_model.cpp:449-469` | a live row is cancelled with its working file and its slot refilled; nothing else happens to any other row (`Cancel`) |
| `DownloadsModels.DownloadsModel.PauseDownload` | `Plazma/src/models/downloads_model.cpp:486-502` | a running or queued row is paused with its working file kept, and its slot refilled (`Pause`) |
| `DownloadsModels.DownloadsModel.ResumeDownload` | `Plazma/src/models/downloads_model.cpp:504-520` | a paused row queues again where it is in the list (`Resume`) |
| `DownloadsModels.DownloadsModel.PauseEverything` | `Plazma/src/models/downloads_model.cpp:522-537` | every running or queued row is paused and nothing is started (`PauseAll`) |
| `DownloadsModels.DownloadsModel.ResumeEverything` | `Plazma/src/models/downloads_model.cpp:539-554` | every paused row queues again, and only then is the queue looked at (`ResumeAll`) |
| `DownloadsModels.DownloadsModel.RemoveDownload` | `Plazma/src/models/downloads_model.cpp:556-587` | the row is gone, with its working file and a look at the queue if it was live (`Remove`) |
| `DownloadsModels.DownloadsModel.ClearFinished` | `Plazma/src/models/downloads_model.cpp:589-612` | the backward loop erases exactly the rows that are over and moves no other (`ClearCompleted`) |
| `DownloadsModels.DownloadsModel.OnSessionGone` | `Plazma/src/models/downloads_model.cpp:124-136` | running and queued rows are cancelled with their working files, paused ones kept (`Logout`) |
| `DownloadsModels.DownloadsModel.OnTimer` | `Plazma/src/models/downloads_model.cpp:672-680` | the timer is spent, and the queue is looked at only if its row is still queued (`TimerFired`) |
| `DownloadsModels.DownloadsModel.ReconcileDest` | `Plazma/src/models/downloads_model.cpp:801-837` | at most once per attempt, and only before bytes are on disk, the destination follows the response's type (`Reconcile`) |
| `DownloadsModels.DownloadsModel.OnFinalHead` | `Plazma/src/models/downloads_model.cpp:868-913` | resume, start over, abort or go on, for every final status and truncate outcome (`FinalHead`) |
| `DownloadsModels.DownloadsModel.OnMetaData` | `Plazma/src/models/downloads_model.cpp:860-914` | a head that is not final changes nothing but the reply; a final one is handled (`MetaData`) |
| `DownloadsModels.DownloadsModel.OnReadyRead` | `Plazma/src/models/downloads_model.cpp:919-940` | the bytes taken are appended, and a short write aborts the reply (`Chunk`) |
| `DownloadsModels.DownloadsModel.OnDownloadProgress` | `Plazma/src/models/downloads_model.cpp:953-966` | a known length sets the total, except while resuming (`Progress`) |
| `DownloadsModels.DownloadsModel.DrainTail` | `Plazma/src/models/downloads_model.cpp:985-989` | after a clean end the tail is appended as far as the disk takes it, and nobody looks (`Drain`) |
| `DownloadsModels.DownloadsModel.OnCleanEnd` | `Plazma/src/models/downloads_model.cpp:1070-1087` | the file becomes the destination, or the row fails and neither file is left (`CleanEnd`) |
| `DownloadsModels.DownloadsModel.SettleReply` | `Plazma/src/models/downloads_model.cpp:993-1087` | paused, cancelled, retried with a timer, failed with a reason, or completed in place, and whether the queue is looked at (`Settle`) |
| `DownloadsModels.DownloadsModel.OnFinished` | `Plazma/src/models/downloads_model.cpp:975-1098` | the reply is drained and settled, and the queue looked at except after a retry (`Finished`) |
| `DownloadsInvariant.ProcessIsFifo` | `Plazma/src/models/downloads_model.cpp:663-670` | there is a cut before which nothing stays queued and from which on nothing is touched; stopping early means all slots are busy |
| `DownloadsInvariant.ProcessKeeps` | `Plazma/src/models/downloads_model.cpp:663-670` | filling the slots keeps every row, the cap and the timers in order |
| `DownloadsInvariant.KickOffKeeps` | `Plazma/src/models/downloads_model.cpp:730-799` | a transfer attempt keeps the invariant whatever the environment answers |
| `DownloadsInvariant.MetaDataKeeps` | `Plazma/src/models/downloads_model.cpp:860-914` | a response head keeps the invariant: body bytes will land where they belong |
| `DownloadsInvariant.ChunkKeeps` | `Plazma/src/models/downloads_model.cpp:919-940` | a chunk, whole or short, keeps the working file a prefix of the resource |
| `DownloadsInvariant.FinishedKeeps` | `Plazma/src/models/downloads_model.cpp:975-1098` | the end of a reply keeps the invariant in each of its branches |
| `DownloadsInvariant.EventKeeps` | `Plazma/src/models/downloads_model.cpp:376-1098` | every slot, callback and timer keeps the whole invariant |
| `DownloadsInvariant.RunKeeps` | `Plazma/src/models/downloads_model.cpp:376-1098` | every legal run keeps it |
| `DownloadsTheorems.EveryRunIsGoverned` | `Plazma/src/models/downloads_model.cpp:449-799` | over every run from any list that the program starts with: at most three transfers, distinct ids, no stranded queue, delays of 1500 or 3000 ms, reply exactly for Downloading, file only then, no user flag on queued or running rows, reason exactly for Failed, attempts at most 3 plus resumes |
| `DownloadsTheorems.EveryRunIsByteExact` | `Plazma/src/models/downloads_model.cpp:730-1087` | over every run from any list that the program starts with, paused rows of an earlier session included: working files are prefixes, progress equals the bytes on disk, a completed row has the whole resource if no tail write failed |
| `DownloadsTheorems.WakeUpSettles` | `Plazma/src/models/downloads_model.cpp:672-680` | when the timer of a queued row fires, all slots are filled or nothing is queued |
| `DownloadsTheorems.EarlierFirst` | `Plazma/src/models/downloads_model.cpp:663-670` | a queued row is not kicked off while an earlier one stays queued |
| `DownloadsTheorems.CancelLeavesNoPart` | `Plazma/src/models/downloads_model.cpp:449-469` | after a cancel the row is Canceled and its working file gone, even though the slot goes to another row |
| `DownloadsTheorems.RemoveLeavesNothing` | `Plazma/src/models/downloads_model.cpp:556-587` | after removing a live row neither the row nor its working file is left |
| `DownloadsTheorems.LogoutLeavesNoParts` | `Plazma/src/models/downloads_model.cpp:124-136` | when the session goes away every running or queued row is Canceled without a working file, and every paused row keeps its own |
| `DownloadsTheorems.PauseKeepsPart` | `Plazma/src/models/downloads_model.cpp:486-502` | pausing keeps every byte of the working file |
| `DownloadsTheorems.AttemptContinuesIff` | `Plazma/src/models/downloads_model.cpp:730-788` | the Range asked for is the length of the working file, which is the old one if and only if it has 64 KiB and less than the known total, and empty otherwise |
| `DownloadsTheorems.CompletesWholeIff` | `Plazma/src/models/downloads_model.cpp:985-1087` | a clean end completes the row, and the destination holds the whole resource if and only if the tail was written whole: a failed tail write is not noticed |
| `DownloadsTheorems.HttpErrorsFail` | `Plazma/src/models/downloads_model.cpp:890-1064` | every status of 400 and above, 416 included, ends in Failed without a retry and without a working file |
| `DownloadsTheorems.TruncatesOnceBeforeTheBody` | `Plazma/src/models/downloads_model.cpp:860-914` | a working file is emptied only by the first final head of a reply, a 200, before any body byte |
| `DownloadsTheorems.StartIsApartIff` | `Plazma/src/models/downloads_model.cpp:384-447` | with slots free or not, a start at a path without a file keeps paths apart if and only if its transfer fails at once or no other row is then waiting for that path |
| `DownloadsTheorems.BusyStartIsApartIff` | `Plazma/src/models/downloads_model.cpp:384-447` | with busy slots, a start keeps live paths apart if and only if no live row waits for that path |
| `DownloadsTheorems.MoveLowersPotential` | `Plazma/src/models/downloads_model.cpp:1028-1049` | the end of a reply and the firing of a timer strictly lower a rank of retries and statuses |
| `DownloadsTheorems.CallbackKeepsPotential` | `Plazma/src/models/downloads_model.cpp:860-966` | heads, chunks and lengths leave that rank alone |
| `DownloadsTheorems.RetriesEnd` | `Plazma/src/models/downloads_model.cpp:975-1098` | without the user, the number of such moves is bounded by the rank at the start |
| `DownloadsTheorems.AtRestMeansDone` | `Plazma/src/models/downloads_model.cpp:663-680` | with no reply and no timer left, every row is over or paused |
| `DownloadsFrames.UnaddressedStays` | `Plazma/src/models/downloads_model.cpp:376-1098` | a row that is not queued is left exactly as it is by every event that is neither about its id nor about all rows of its status |
| `DownloadsFrames.TruncatesAtMostOnce` | `Plazma/src/models/downloads_model.cpp:730-940` | from the start of a reply to its end, whatever happens to this row and to others in between, its working file is truncated at most once |
| `DownloadsOutcomes.QueuedIsDispatched` | `Plazma/src/models/downloads_model.cpp:663-799` | after the queue has been looked at, a row that waited has been given a slot, and then runs from what is worth keeping or has failed with the reason of the step that failed, or waits as it was with all three slots taken |
| `DownloadsOutcomes.ResumeWakes` | `Plazma/src/models/downloads_model.cpp:504-520` | a paused row that is resumed keeps its place and data and has no user flag left; it runs from the length of its working file (from 0 when that is not worth a Range), has failed, or is queued with every slot busy; other rows are at most started |
| `DownloadsOutcomes.StartWakes` | `Plazma/src/models/downloads_model.cpp:396-402` | a start on a paused row does the same |
| `DownloadsOutcomes.RetryWakesIff` | `Plazma/src/models/downloads_model.cpp:471-484` | so does a retry, if and only if id and address are not empty |
| `DownloadsOutcomes.ResumeAllWakes` | `Plazma/src/models/downloads_model.cpp:539-554` | and resuming all rows does it for every paused one, so that none stays paused |
| `DownloadsOutcomes.InterruptedIsRetried` | `Plazma/src/models/downloads_model.cpp:1011-1049` | a dropped transfer with a retry left goes back to its place in the queue with one retry less and everything it has on disk, and gets a new timer of 1500 ms the first time and 3000 ms the second; nothing else changes |
| `DownloadsOutcomes.ErrorIsFinal` | `Plazma/src/models/downloads_model.cpp:1011-1064` | any other error, and a dropped transfer without a retry left, fails for good: ErrorAuth for 401 and 403, ErrorHttp for other statuses from 400 on, ErrorTimeout for a timeout, else ErrorNetwork; no timer, no working file, and the slot is passed on |
| `DownloadsOutcomes.CleanEndIff` | `Plazma/src/models/downloads_model.cpp:1066-1087` | a clean end completes the row if and only if there is a file and the rename works; otherwise it fails for the disk and neither file is left |
| `DownloadsOutcomes.PausedReplyEnds` | `Plazma/src/models/downloads_model.cpp:1006-1026` | the end of a reply whose row is paused leaves status and working file alone |
| `DownloadsOutcomes.CanceledReplyEnds` | `Plazma/src/models/downloads_model.cpp:1007-1030` | the end of a cancelled one takes the working file along and is never retried |
| `DownloadsSlots.StartAdds` | `Plazma/src/models/downloads_model.cpp:384-447` | a start of a video without a row, or with one that is over, drops that row and puts a new one with two retries at the end, which is given a slot or waits with all taken; the others keep their order |
| `DownloadsSlots.RetryAdds` | `Plazma/src/models/downloads_model.cpp:471-484` | a retry of a failed or cancelled row does this with the row's own address, type and size |
| `DownloadsSlots.PauseAllIs` | `Plazma/src/models/downloads_model.cpp:522-537` | exactly the running and queued rows are paused, with everything they have; no file changes |
| `DownloadsSlots.RemoveDrops` | `Plazma/src/models/downloads_model.cpp:556-587` | a removed row is gone whatever its status, the others stay in order; a row that is over keeps its file and starts nothing |
| `DownloadsSlots.ClearLeaves` | `Plazma/src/models/downloads_model.cpp:589-612` | exactly the rows that are not over are left, in order, and every file |
| `DownloadsSlots.IgnoredIff` | `Plazma/src/models/downloads_model.cpp:449-612` | a request other than a start changes nothing if and only if no row is in a state that it is about |
| `DownloadsCallbacks.BodyAppends` | `Plazma/src/models/downloads_model.cpp:919-940` | the bytes taken are appended and counted; with fewer than came the reply is aborted, as a dropped transfer |
| `DownloadsCallbacks.BodyIsDropped` | `Plazma/src/models/downloads_model.cpp:919-926` | without an open file or reply the bytes change nothing |
| `DownloadsCallbacks.ErrorBodyIsDropped` | `Plazma/src/models/downloads_model.cpp:919-926` | the bytes of an error response never reach the working file |
| `DownloadsCallbacks.LengthIsTotalIff` | `Plazma/src/models/downloads_model.cpp:953-966` | a length becomes the size if and only if it is positive and the transfer did not resume |
| `DownloadsCallbacks.EarlyHead` | `Plazma/src/models/downloads_model.cpp:860-867` | heads without a status and redirecting ones change nothing but what is known of the reply |
| `DownloadsCallbacks.PartialHead` | `Plazma/src/models/downloads_model.cpp:868-880` | a 206 keeps the working file, takes the size of its Content-Range if there is one, and the next byte belongs at the end of the file |
| `DownloadsCallbacks.WholeHead` | `Plazma/src/models/downloads_model.cpp:881-889` | a 200 to a resumed transfer goes on from an empty file, or aborts when the file cannot be emptied |
| `DownloadsCallbacks.TypeMovesFile` | `Plazma/src/models/downloads_model.cpp:801-837` | before any byte is on disk another usable type is taken over, and with another extension the working file moves to the new path |
| `DownloadsCallbacks.DestinationStays` | `Plazma/src/models/downloads_model.cpp:801-811` | after the first time, or with bytes on disk, the destination stays |
| `DownloadsCallbacks.TimerIsSpent` | `Plazma/src/models/downloads_model.cpp:672-680` | a timer that has fired is gone, and does nothing unless its row still waits |
| `DownloadsCallbacks.ReasonIsKeptIff` | `Plazma/src/models/downloads_model.cpp:1117-1129` | a reason is kept if and only if the row has failed |
| `DownloadsRestarts.RestoredKeepsIff` | `Plazma/src/models/downloads_model.cpp:1133-1187` | the restored list meets the whole invariant if and only if the restored rows have different ids and paths, the working files of paused ones are prefixes and the files of completed ones whole |
| `DownloadsRestarts.RestoredIff` | `Plazma/src/models/downloads_model.cpp:1133-1187` | the rows that a session starts with are exactly the completed records with their file and the paused ones with their working file, the latter with the length of that file received and two retries |
| `DownloadsSessions.ProcessKeepsRecords` | `Plazma/src/models/downloads_model.cpp:486-554` | what is saved before the queue is processed is what would be saved after |
| `DownloadsSessions.MoveKeeps` | `Plazma/src/models/downloads_model.cpp:113-116` | an event or a restart keeps the invariant while the records in the settings are those of rows of the list |
| `DownloadsSessions.CurrentIff` | `Plazma/src/models/downloads_model.cpp:376-630` | such records stay so if and only if the move is none of these: a paused download is cancelled or removed, a completed one downloaded again, a restart drops a record; none of them saves |
| `DownloadsSessions.AlwaysCurrentIff` | `Plazma/src/models/downloads_model.cpp:376-1243` | over several sessions the records describe the list throughout if and only if no such move occurs, and then the invariant holds at the end |
| `DownloadsSessions.EverySessionIsByteExact` | `Plazma/src/models/downloads_model.cpp:730-1243` | and then resuming is byte-exact across any number of restarts |
| `DownloadsForgotten.CancelledTakesOver` | `Plazma/src/models/downloads_model.cpp:449-502` | a run in which a cancelled download is restored on top of another one's working file |
| `DownloadsForgotten.DownloadedAgainDoubles` | `Plazma/src/models/downloads_model.cpp:403-411` | a run after which two rows have the same id and the paused one can no longer be resumed |
| `TaskQueues.TaskQueue.RemoveFrom` | `Plazma/src/storage/task_queue.cpp:63-82` | the first task with the id leaves the queue, and only that one |
| `TaskQueues.TaskQueue.AddTasks` | `Plazma/src/storage/task_queue.cpp:24-45` | the tasks are appended in order |
| `TaskQueues.TaskQueue.CancelUnderProcessMutex` | `Plazma/src/storage/task_queue.cpp:63-72` | the waiting task leaves, and a task in process is marked unwanted |
| `TaskQueues.TaskQueue.CancelUnderFinishMutex` | `Plazma/src/storage/task_queue.cpp:73-82` | the task leaves the finish queue |
| `TaskQueues.TaskQueue.WorkerTakes` | `Plazma/src/storage/task_queue.cpp:113-122` | the front task is taken and named as in process |
| `TaskQueues.TaskQueue.WorkerTransfers` | `Plazma/src/storage/task_queue.cpp:126-143` | a task still wanted moves to the finish queue, with a signal exactly if that was empty |
| `TaskQueues.TaskQueue.OwnerTakes` | `Plazma/src/storage/task_queue.cpp:84-95` | the front of the finish queue is taken |
| `TaskQueueProofs.StepKeeps` | `Plazma/src/storage/task_queue.cpp:24-149` | every step of worker, finisher and canceller keeps the invariant |
| `TaskQueueProofs.EveryInterleaving` | `Plazma/src/storage/task_queue.cpp:24-149` | over every interleaving: finish order is add order, at most once, only after processing, never for a cancelled task, every task in exactly one place |
| `TaskQueueProofs.FinisherAtRest` | `Plazma/src/storage/task_queue.cpp:84-143` | no pending signal, no signal about to be sent and no drain loop means an empty finish queue |
| `TaskQueueProofs.TransferSignalsIff` | `Plazma/src/storage/task_queue.cpp:126-143` | between check and push a task still wanted joins the finish queue, and a completion signal follows exactly if that was empty; any other task is dropped |
| `TaskQueueProofs.CancelIsFinal` | `Plazma/src/storage/task_queue.cpp:63-95` | after cancelTask has returned no later step starts finish for that task |
| `TaskQueueProofs.CancelTaskCancels` | `Plazma/src/storage/task_queue.cpp:63-82` | the task that carried the id when the cancel began counts as cancelled when it returns, whatever the worker did between the two locks |
| `TaskQueueProofs.InterruptedStops` | `Plazma/src/storage/task_queue.cpp:107-149` | over every run from an interruption on, the worker takes no further task but the one it may be about to take |
| `TaskQueueWakeUps.LosesIff` | `Plazma/src/storage/task_queue.cpp:107-149` | a wake-up of a waiting task is lost by exactly two steps: the last queued one is swallowed after the worker has found nothing left, or the task in process is cancelled before the worker has learnt that another one waits |
| `TaskQueueWakeUps.FoundIff` | `Plazma/src/storage/task_queue.cpp:24-149` | and found again only by another add, an interruption, or the cancellation of the last waiting task |
| `TaskQueueWakeUps.AlwaysSeenIff` | `Plazma/src/storage/task_queue.cpp:24-149` | along a run waiting tasks are always going to be looked at if and only if no step loses a wake-up |
| `TaskQueueWakeUps.LostStaysLost` | `Plazma/src/storage/task_queue.cpp:24-149` | a lost wake-up stays lost until the owner adds, cancels or interrupts; when the worker comes to rest before, the task is stranded |
| `TaskQueueWakeUps.EveryRunIsDoneIff` | `Plazma/src/storage/task_queue.cpp:24-149` | from the start: when both threads have come to rest, every task is finished or cancelled if and only if no wake-up is lost at the end, and none is if no step of the run lost one |
| `TaskQueueWakeUps.SwallowedWakeUpStrands` | `Plazma/src/storage/task_queue.cpp:107-149` | a run from the start, for every two ids, in which nobody cancels and the second task waits for ever |
| `TaskQueueWakeUps.CancelInProcessStrands` | `Plazma/src/storage/task_queue.cpp:63-149` | a run from the start, for every two ids, in which cancelling the first task while it is in process strands the second |
| `Base64.Base64Encode` | `PlazmaServer/src/utils/jwt.cpp:32-50` | four characters for every group, the last one included |
| `Base64.Base64UrlEncode` | `PlazmaServer/src/utils/jwt.cpp:52-62` | the loops compute `UrlEncode` |
| `Base64.Base64UrlDecode` | `PlazmaServer/src/utils/jwt.cpp:64-98` | the loops compute `UrlDecode`; an invalid text gives nothing |
| `Base64.UrlRoundTrip` | `PlazmaServer/src/utils/jwt.cpp:32-98` | decoding an encoded text gives it back followed by zero bytes up to a multiple of three |
| `Base64.UrlRoundTripExactIff` | `PlazmaServer/src/utils/jwt.cpp:32-98` | the round trip is exact if and only if the length is a multiple of three |
| `Base64Words.AlphabetOrder` | `PlazmaServer/src/utils/jwt.cpp:29-62` | the alphabet is in the standard order, with two other characters in URLs |
| `Base64Words.PaddingIsStripped` | `PlazmaServer/src/utils/jwt.cpp:52-62` | exactly the trailing padding is dropped |
| `Base64Words.UrlDecodeIff` | `PlazmaServer/src/utils/jwt.cpp:64-98` | any text at all decodes to given bytes if and only if, filled up with padding, each of its groups of four stands for its share of them as a word of 24 bits; one foreign character and nothing is decoded |
| `Jwt.ExtractClaim` | `PlazmaServer/src/utils/jwt.cpp:122-144` | the first occurrence of the quoted key decides, and a delimiter must follow the number |
| `Jwt.Mint` | `PlazmaServer/src/utils/jwt.cpp:148-165` | header, payload and keyed hash, joined by dots |
| `Jwt.Verify` | `PlazmaServer/src/utils/jwt.cpp:167-192` | the verdict on any token at any time |
| `Texts.StollOfDec` | `PlazmaServer/src/utils/jwt.cpp:133-140` | a written int64 that something else follows is read back exactly |
| `JwtProofs.VerdictOfMinted` | `PlazmaServer/src/utils/jwt.cpp:148-192` | verifying a minted token comes down to judging the payload and its trailing zero bytes |
| `JwtProofs.TokenRoundTrip` | `PlazmaServer/src/utils/jwt.cpp:148-192` | for every hash, id and mint time: the id before mint time plus 30 days, nothing from then on, if the expiry key does not occur in the quoted phone number |
| `JwtProofs.QuoteFreePhone` | `PlazmaServer/src/utils/jwt.cpp:154-157` | a phone number without a double quote is never in the way |
| `JwtProofs.PhoneBreaks` | `PlazmaServer/src/utils/jwt.cpp:122-192` | otherwise at least one of any two mint times gives a wrong verdict at some later time |
| `JwtProofs.TokensReadBackIff` | `PlazmaServer/src/utils/jwt.cpp:122-192` | tokens read back at all mint times if and only if the expiry key does not occur there |
| `JwtVerdicts.ClaimIff` | `PlazmaServer/src/utils/jwt.cpp:122-144` | a claim is read from any text if and only if behind the first occurrence of its quoted key, and any spaces, there is an integer of 64 bits with a delimiter or the end after it |
| `JwtVerdicts.AcceptedIff` | `PlazmaServer/src/utils/jwt.cpp:167-192` | for any token, time and keyed hash: the token names a user if and only if it is two non-empty parts without a dot and the hash of both joined, and the second part decodes to a payload whose expiry is later and whose subject is that user |
| `JwtVerdicts.MintedIsSigned` | `PlazmaServer/src/utils/jwt.cpp:148-165` | a minted token is so signed, and its header decodes to the algorithm and the type |
| `Multipart.ExtractBoundary` | `PlazmaServer/src/handlers/videos/video_create.cpp:32-43` | the loops compute `Boundary` |
| `Multipart.ExtractDispositionParam` | `PlazmaServer/src/handlers/videos/video_create.cpp:58-74` | the searches compute `DispositionParam` |
| `Multipart.ExtractPartContentType` | `PlazmaServer/src/handlers/videos/video_create.cpp:77-92` | the loops compute `PartContentType` |
| `Multipart.ParseMultipart` | `PlazmaServer/src/handlers/videos/video_create.cpp:94-129` | the loop ends on every input and computes `Parts` |
| `MultipartHeaders.ParamIff` | `PlazmaServer/src/handlers/videos/video_create.cpp:46-74` | a parameter is read from any header text if and only if the line of the first disposition header, in any case, has its name with an opening quote, and the value up to the next quote |
| `MultipartHeaders.AbsentParam` | `PlazmaServer/src/handlers/videos/video_create.cpp:58-70` | without a disposition header, or where its line does not hold the parameter's name with an opening quote, the parameter is empty |
| `MultipartHeaders.TypeIsRead` | `PlazmaServer/src/handlers/videos/video_create.cpp:77-92` | the type is what stands behind the name of the first type header, in any case, in its line |
| `MultipartHeaders.AbsentType` | `PlazmaServer/src/handlers/videos/video_create.cpp:77-79` | without a type header the type is empty |
| `MultipartHeaders.TypeIsCleaned` | `PlazmaServer/src/handlers/videos/video_create.cpp:82-91` | spaces around it and parameters after it are no part of it |
| `MultipartHeaders.NameIsRead` | `PlazmaServer/src/handlers/videos/video_create.cpp:58-74` | every quote-free name is read |
| `MultipartHeaders.FilenameIsRead` | `PlazmaServer/src/handlers/videos/video_create.cpp:58-74` | the file name is read, except after a name that ends in `filename=` in any case |
| `MultipartHeaders.NoFilenameIsRead` | `PlazmaServer/src/handlers/videos/video_create.cpp:58-74` | a line without a file name reads as having none, whatever the name is |
| `MultipartProofs.BlocksAreRead` | `PlazmaServer/src/handlers/videos/video_create.cpp:94-129` | any text of blocks between delimiters, after a preamble without one and up to a delimiter with no block after it, gives one part for each block, in order |
| `MultipartProofs.EveryBodySplits` | `PlazmaServer/src/handlers/videos/video_create.cpp:94-129` | and every body that holds the delimiter is made so |
| `MultipartProofs.NoDelimiterNoParts` | `PlazmaServer/src/handlers/videos/video_create.cpp:97-99` | a body without the delimiter has no parts |
| `MultipartProofs.MultipartRoundTrip` | `PlazmaServer/src/handlers/videos/video_create.cpp:94-129` | a body put together from parts, with or without file name and type, with header names in any case and either header first, gives the same parts in order; what a part was sent without is empty |
| `MultipartProofs.PartUnchangedIff` | `PlazmaServer/src/handlers/videos/video_create.cpp:56-92` | a part comes back unchanged if and only if its name does not end in the parameter's own name (or the file name is what is then read) and its type is plain |
| `MultipartProofs.DataHoldsNoDelimiter` | `PlazmaServer/src/handlers/videos/video_create.cpp:94-129` | whatever the body, no part's data holds a delimiter line |
| `MultipartProofs.QuotedBoundary` | `PlazmaServer/src/handlers/videos/video_create.cpp:32-43` | a quoted boundary is read up to its closing quote |
| `MultipartProofs.PlainBoundaryIff` | `PlazmaServer/src/handlers/videos/video_create.cpp:32-43` | an unquoted one, at the end or before a separator, is read if and only if it is a token that does not start with a quote |
| `MultipartProofs.NoBoundary` | `PlazmaServer/src/handlers/videos/video_create.cpp:32-43` | without the name of the parameter, or with a quote that is not closed, there is none |
| `PlaylistStores.PlaylistStore.constructor` | `PlazmaServer/migrations/005_playlist_tables.cql:10-60` | the five tables, as the migration leaves them, are empty and stand for the empty library |
| `PlaylistStores.PlaylistStore.InsertMetadataBoth` | `PlazmaServer/src/handlers/playlists/playlists_common.cpp:61-94` | both metadata rows are written |
| `PlaylistStores.PlaylistStore.UpdateCountAndCovers` | `PlazmaServer/src/handlers/playlists/playlists_common.cpp:96-131` | both rows get count, covers and time, up to the first write that fails; a missing row comes into being |
| `PlaylistStores.PlaylistStore.UpdateName` | `PlazmaServer/src/handlers/playlists/playlists_common.cpp:133-157` | both rows get name and time |
| `PlaylistStores.PlaylistStore.TryReserveName` | `PlazmaServer/src/handlers/playlists/playlists_common.cpp:205-225` | the name is reserved if and only if nobody has it |
| `PlaylistStores.PlaylistStore.ReleaseName` | `PlazmaServer/src/handlers/playlists/playlists_common.cpp:227-237` | the reservation is dropped |
| `PlaylistStores.PlaylistStore.RecomputeCoverThumbnails` | `PlazmaServer/src/handlers/playlists/playlists_common.cpp:179-203` | the loop computes the first four covers of the newest sixteen rows |
| `PlaylistStores.PlaylistStore.NewCovers` | `PlazmaServer/src/handlers/playlists/item_add.cpp:283-291` | the loop computes the covers with the new one in front |
| `PlaylistStores.PlaylistStore.Create` | `PlazmaServer/src/handlers/playlists/create.cpp:74-138` | tables and status are exactly those of the stepwise handler run without interruption, so the lemmas about either hold of both |
| `PlaylistStores.PlaylistStore.Rename` | `PlazmaServer/src/handlers/playlists/rename.cpp:69-118` | tables and status are exactly those of the stepwise handler, whichever of its best-effort operations fail, each on its own |
| `PlaylistStores.PlaylistStore.PurgeMembership` | `PlazmaServer/src/handlers/playlists/delete.cpp:103-116` | the loop removes the memberships of the videos read, except those whose removal fails |
| `PlaylistStores.PlaylistStore.Unlist` | `PlazmaServer/src/handlers/playlists/delete.cpp:63-86` | both metadata rows are gone, the reservation too unless that fails, and nothing else |
| `PlaylistStores.PlaylistStore.Delete` | `PlazmaServer/src/handlers/playlists/delete.cpp:51-130` | tables and status are exactly those of the stepwise handler, whichever of its best-effort operations fail, each on its own |
| `PlaylistStores.PlaylistStore.AddItem` | `PlazmaServer/src/handlers/playlists/item_add.cpp:165-308` | tables and status are exactly those of the stepwise handler run without interruption, so the lemmas about either hold of both |
| `PlaylistStores.PlaylistStore.RemoveItem` | `PlazmaServer/src/handlers/playlists/item_remove.cpp:50-111` | tables and status are exactly those of the stepwise handler, whichever of its best-effort operations fail, each on its own |
| `PlaylistRefinement.CreateRefines` | `PlazmaServer/src/handlers/playlists/create.cpp:74-138` | on tables that stand for a library, the handler does what the library says, status included |
| `PlaylistRefinement.RenameRefines` | `PlazmaServer/src/handlers/playlists/rename.cpp:69-118` | the same for renaming |
| `PlaylistRefinement.DeleteRefines` | `PlazmaServer/src/handlers/playlists/delete.cpp:51-130` | the same for deleting: no row of any table is left |
| `PlaylistRefinement.AddRefines` | `PlazmaServer/src/handlers/playlists/item_add.cpp:165-308` | the same for adding a video |
| `PlaylistRefinement.RemoveRefines` | `PlazmaServer/src/handlers/playlists/item_remove.cpp:50-111` | the same for removing one |
| `PlaylistHandlers.CourseIsAlone` | `PlazmaServer/src/handlers/playlists/rename.cpp:79-106` | a handler whose operations all get the same answers is the uninterrupted one of the refinement |
| `PlaylistRefinement.HandlersRefine` | `PlazmaServer/src/handlers/playlists/playlists_common.cpp:33-277` | any sequence of complete requests: the five tables stay those of one map, every answer is the map's, the caps of 200 playlists and 5000 items hold |
| `PlaylistNames.StepKeepsOwn` | `PlazmaServer/src/handlers/playlists/rename.cpp:79-106` | one table operation of a handler keeps its playlist named and listed properly |
| `PlaylistNames.StepLeavesOthers` | `PlazmaServer/src/handlers/playlists/playlists_common.cpp:61-157` | and does not concern the names and owners of other playlists |
| `PlaylistNames.NamesStayUnique` | `PlazmaServer/src/handlers/playlists/rename.cpp:79-106` | over every interleaving with stops anywhere, in which creations, renamings and deletions of one playlist do not overlap and nothing overlaps a deletion: folded names are unique per user and reserved to their playlist, and a listed playlist can be looked up |
| `PlaylistNames.ReservationsAreSafe` | `PlazmaServer/src/handlers/playlists/delete.cpp:63-86` | no step takes or releases another playlist's reservation |
| `PlaylistLeaks.NoneLostIff` | `PlazmaServer/src/handlers/playlists/create.cpp:113-130` | a reserved name gets lost by exactly these events: a handler stops between reserving and using it, or between dropping and releasing it, or a release fails |
| `PlaylistLeaks.EveryRunLosesNoneIff` | `PlazmaServer/src/handlers/playlists/rename.cpp:79-106` | after any run every reserved name belongs to a playlist or a handler if and only if no event of the run lost one |
| `PlaylistLeaks.LostForEver` | `PlazmaServer/src/handlers/playlists/rename.cpp:87-103` | a lost name, by a stop or a failed release, stays reserved in every further run, and every attempt to take it is a conflict |
| `PlaylistRaces.RenameDuringDelete` | `PlazmaServer/src/handlers/playlists/rename.cpp:88-106` | two handlers on one playlist: a row without owner comes back, with a name reserved to nobody |
| `PlaylistBreaks.StepBreaksIff` | `PlazmaServer/src/handlers/playlists/playlists_common.cpp:61-237` | whatever else runs: one table operation leaves names reserved to their playlists and listed playlists with their owners if and only if it is none of those that name a row with a name not reserved to it, list a playlist for somebody it does not belong to, drop the row of a listed playlist, or release a name in use |
| `PlaylistBreaks.AlwaysConsistentIff` | `PlazmaServer/src/handlers/playlists/playlists_common.cpp:61-237` | over every run of any handlers, overlapping as they like, names and ownership are in order throughout if and only if no step of the run is one of these |
| `PlaylistBreaks.MayOverlapBreaksNothing` | `PlazmaServer/src/handlers/playlists/rename.cpp:79-106` | handlers that overlap only as `PlaylistNames` assumes take no such step |
| `PlaylistRaces.LostUpdate` | `PlazmaServer/src/handlers/playlists/item_add.cpp:293-294` | two adds that read before either writes: two more rows, one more in the count |
| `PlaylistRaces.HalfAddedStays` | `PlazmaServer/src/handlers/playlists/item_add.cpp:174-255` | an add stopped between membership and item is not completed by adding again |
| `PlaylistHalves.NoneStuckIff` | `PlazmaServer/src/handlers/playlists/item_add.cpp:220-297` | a membership is left without its item by exactly one event, a handler that stops between the two, and for good |
| `PlaylistHalves.MembersAreItemsIff` | `PlazmaServer/src/handlers/playlists/item_add.cpp:220-297` | after any interleaving of adds every member is an item or about to be one if and only if it was so before and no handler stopped there |
| `PlaylistAdds.OtherKeepsAdd` | `PlazmaServer/src/handlers/playlists/item_add.cpp:220-297` | a step of one add leaves what another relies on |
| `PlaylistAdds.AddsAreSafe` | `PlazmaServer/src/handlers/playlists/item_add.cpp:166-297` | over every interleaving of adds with stops: one row per video, each with its membership at the same time, counts not above the rows |
| `PlaylistCounts.RightIff` | `PlazmaServer/src/handlers/playlists/item_add.cpp:166-297` | the count falls behind the number of rows by exactly these steps: an insertion or a count from an old reading, or the end of the only handler that would have corrected it |
| `PlaylistCounts.CountIsRightIff` | `PlazmaServer/src/handlers/playlists/item_add.cpp:166-297` | over every interleaving of adds with stops that comes to rest: the count is the number of rows if and only if it was and no such step occurred |
| `PlaylistCounts.RemoveKeepsCountIff` | `PlazmaServer/src/handlers/playlists/item_remove.cpp:57-111` | a remove that nothing interrupts keeps a right count right if and only if the deletion of the item and the write of the count both take effect or both fail |
| `PlaylistCounts.RemoveRestoresCount` | `PlazmaServer/src/handlers/playlists/item_remove.cpp:57-111` | a count that is one behind comes right again by a remove whose count is not written |
| `PlaylistCounts.CountsStayInRange` | `PlazmaServer/src/handlers/playlists/item_remove.cpp:57-111` | over every run of adds and removes beside each other, with stops anywhere, both stored counts stay between 0 and 5000 |
| `PlaylistCovers.PrependAgreesIff` | `PlazmaServer/src/handlers/playlists/item_add.cpp:280-291` | prepending equals recomputing if and only if the new thumbnail and the three newest before it differ |
| `PlaylistCovers.RecomputedIsNewest` | `PlazmaServer/src/handlers/playlists/playlists_common.cpp:179-203` | without empty thumbnails recomputing gives the newest four |
| `PlaylistCovers.RecomputedAre` | `PlazmaServer/src/handlers/playlists/playlists_common.cpp:179-203` | with any thumbnails it gives the first four that are not empty among the newest sixteen |
| `PlaylistCovers.PrependedAre` | `PlazmaServer/src/handlers/playlists/item_add.cpp:283-291` | prepending gives the first four different ones that are not empty, the new one first |
| `PlaylistCovers.CoversAreNewest` | `PlazmaServer/src/handlers/playlists/item_remove.cpp:90-106` | over any adds and removes, with a moving clock and different thumbnails, the stored covers are the newest four |
| `Cursors.Encode` | `PlazmaServer/src/utils/playlist.cpp:28-42` | two to four characters a group, by 24-bit words |
| `Cursors.Decode` | `PlazmaServer/src/utils/playlist.cpp:44-68` | the 32-bit buffer, and failure on a foreign character |
| `Cursors.CursorRoundTrip` | `PlazmaServer/src/utils/playlist.cpp:28-68` | decoding gives exactly the bytes back, though the buffer overflows |
| `CursorNumbers.DecodeIff` | `PlazmaServer/src/utils/playlist.cpp:44-68` | any text decodes to given bytes if and only if all its characters are of the alphabet and the bytes are the whole bytes of its number in base 64 |
| `Cursors.ItemCursorRoundTrip` | `PlazmaServer/src/utils/playlist.cpp:72-91` | a cursor reads back |
| `Pagination.Page` | `PlazmaServer/src/handlers/playlists/items_list.cpp:83-129` | one row more is fetched than returned; a token exactly if there are more |
| `Pagination.ListItems` | `PlazmaServer/src/handlers/playlists/items_list.cpp:51-129` | 400 for a limit that is no number or a token that is no cursor, then 404 for a playlist that is not the user's, then one page: without a token in the answer all rows beyond the cursor, with one exactly as many as asked for, at least 1 and at most 100, or 50 when nothing is asked; the token is that of the last item |
| `Pagination.ScanAscends` | `PlazmaServer/src/handlers/playlists/items_list.cpp:83-129` | across pages the keys ascend strictly, whatever changes in between |
| `Pagination.ScanFinds` | `PlazmaServer/src/handlers/playlists/items_list.cpp:83-129` | an item present throughout a complete scan is listed exactly once |
| `Pagination.ScanIsList` | `PlazmaServer/src/handlers/playlists/detail.cpp:71-104` | on an unchanging playlist the pages together are the list in order |
| `Pagination.ScanEnds` | `PlazmaServer/src/handlers/playlists/items_list.cpp:110-129` | and there are no more pages than items, or one |
| `ItemOrder.SortedIs` | `PlazmaServer/migrations/005_playlist_tables.cql:31-45` | the clustering order determines the sequence of rows |
| `ItemOrder.TextLessIff` | `PlazmaServer/migrations/005_playlist_tables.cql:31-45` | video ids are ordered by the first place where they differ, a text before its continuations |
| `SignalThrottles.SignalThrottle.Request` | `Plazma/src/utils/signal_throttle.h:43-51` | fires and starts the timer, or waits for the running one |
| `SignalThrottles.SignalThrottle.Timeout` | `Plazma/src/utils/signal_throttle.h:27-36` | fires and starts over if a request waits, else goes quiet |
| `SignalThrottles.SignalThrottle.Cancel` | `Plazma/src/utils/signal_throttle.h:56-59` | nothing waits and the timer is stopped |
| `SignalThrottles.SignalThrottle.Flush` | `Plazma/src/utils/signal_throttle.h:64-68` | fires at once with the timer stopped |
| `SignalThrottles.PendingHasTimer` | `Plazma/src/utils/signal_throttle.h:24-68` | in every run a waiting request has a running timer |
| `SignalThrottles.SpacedIff` | `Plazma/src/utils/signal_throttle.h:27-68` | a firing comes less than an interval after the last one by exactly these events: a flush, or a request that finds the timer stopped |
| `SignalThrottles.RunIsSpacedIff` | `Plazma/src/utils/signal_throttle.h:24-68` | after any run, with flushes and cancels anywhere, all firings are an interval apart if and only if no event of the run fired early |
| `SignalThrottles.UndisturbedIsNeverEarly` | `Plazma/src/utils/signal_throttle.h:24-51` | a run without flush and cancel never fires early |
| `SignalThrottles.FiringsAreSpaced` | `Plazma/src/utils/signal_throttle.h:24-68` | unless one was early, k + 1 firings take at least k intervals |
| `SignalThrottles.FlushIsNotSpaced` | `Plazma/src/utils/signal_throttle.h:64-68` | after a flush a request fires again at once |
| `SignalThrottles.CancelIsNotSpaced` | `Plazma/src/utils/signal_throttle.h:43-59` | so does a request after a request and a cancel |
| `SignalThrottles.NoRequestIsLost` | `Plazma/src/utils/signal_throttle.h:24-68` | every request is followed by a firing no later than the next expiry, unless cancelled |
| `SignalThrottles.WindowIsFolded` | `Plazma/src/utils/signal_throttle.h:24-51` | requests while the timer runs fire nothing; when it expires all of them are fired once and a new window starts, and without any the throttle goes quiet |
| `SignalThrottles.QuietThenFires` | `Plazma/src/utils/signal_throttle.h:24-51` | after a window without requests the next request fires at once |
| `SignalThrottles.CancelDrops` | `Plazma/src/utils/signal_throttle.h:43-59` | a cancel drops what waits, and the next request fires at once |
| `SignalThrottles.FlushFiresOnce` | `Plazma/src/utils/signal_throttle.h:61-68` | a flush fires once for all that waits and leaves nothing to expire |
| `ArticlesCaches.ArticlesCacheContainer.InsertOrAssign` | `PlazmaServer/unused/cache/articles_cache.cpp:9-24` | the four maps are those of `Inserted`; from agreeing indexes they agree again if and only if the slug is free and the creation time unchanged |
| `ArticlesCaches.ArticlesCacheContainer.FindArticleBySlug` | `PlazmaServer/unused/cache/articles_cache.cpp:28-32` | with agreeing indexes: the article with that slug, or none has it |
| `ArticlesCaches.ArticlesCacheContainer.GetRecent` | `PlazmaServer/unused/cache/articles_cache.cpp:34-57` | with agreeing indexes: the primary map's articles, newest first, filtered, after the offset, up to the limit |
| `ArticlesCaches.ArticlesCacheContainer.GetFeed` | `PlazmaServer/unused/cache/articles_cache.cpp:58-79` | with agreeing indexes: the same for the articles of followed authors |
| `ArticlesCaches.Select` | `PlazmaServer/unused/cache/articles_cache.cpp:37-56` | the loop with its offset counter and early end is filter, drop, take |
| `ArticlesCaches.FilteredAre` | `PlazmaServer/unused/cache/articles_cache.cpp:37-56` | the articles selected are exactly those with the tag, author and user asked for, once each and newest first |
| `ArticlesCaches.InsertAgreesIff` | `PlazmaServer/unused/cache/articles_cache.cpp:9-24` | indexes stay in agreement if and only if no other article holds the slug and the creation time has not changed |
| `ArticlesCaches.QueriesComeFromPrimary` | `PlazmaServer/unused/cache/articles_cache.cpp:9-79` | after any orderly insertions the indexes are what the primary map determines |
| `ArticlesCaches.NewestAscends` | `PlazmaServer/unused/cache/articles_cache.hpp:34-46` | the recency index lists strictly descending keys |

## Left out

- Notifications, list-model signals, speeds, toasts, and the compact bar of the download model.
- The rows of the download model hold the counters of their working file as values; the object that owns them is the class `PartFiles.PartFile`.
- The times at which downloads finished: the completed rows are restored in the order of their records, and any hundred of them at most are saved, in any order.
- Slots called again from inside a signal handler of the same call: each slot and callback is one step.
- How a destination path is made from a title: any path without a file is possible; that it differs from the paths of live rows is assumed, and `DownloadsTheorems.StartIsApartIff` says when it does.
- Destination paths that end in `.part`: working files and finished files are two separate maps.
- File removals that fail, and files changed by others while the engine runs; between two runs they may change where `DownloadsRestarts.RestoredKeepsIff` and the theorems from a restored list are concerned, but not in `DownloadsSessions`.
- Servers that answer a download with a success status other than 200 and 206, or with 206 without being asked for a Range.
- Transport details of a reply: it is a source of a head, chunks and an end; MIME sniffing is an answer of the environment.
- `finish()` of a task that runs a nested event loop, and task ids reused while the old task still exists.
- JSON: a cursor's text is any injective text that reads back, and request bodies are already parsed and validated (lengths of names, shapes of ids).
- Case folding: any function from strings to strings.
- The HMAC: any function from byte strings to 32 bytes; the clock is a parameter.
- ScyllaDB: single-row operations are atomic and take effect or not; a write that reports a timeout and takes effect later is not modelled.
- Columns of an item other than the thumbnail are one opaque value, and the merge of client and canonical fields is left to the caller.
- Strings are sequences of characters below 256 where bytes matter; lower-casing is that of ASCII.
- How the text of a page limit is read (`std::stoi` is an answer of the environment), authentication and the headers of the HTTP answers.
- Negative limits of article queries, which make the original throw; the limit is a natural number here.
- The listing of a user's playlists and of a video's playlists, playlist rollbacks in the client, search, comments, authentication and uploads beyond the body parser.
- AddsAreSafe: says nothing about removes interleaved with adds of the same video; when the count equals the number of rows is `PlaylistCounts.CountIsRightIff`.
- CountIsRightIff: says nothing about removes interleaved with adds; with removes a count that has fallen behind can be right again by accident (`PlaylistCounts.RemoveRestoresCount`), so that no condition on single steps decides it.
- LoadPersisted: leaves out the sort of the completed rows by the time they finished, because those times are not modelled; the rows come in the order of their records.
- NamesStayUnique: assumes that no two creations, renamings or deletions of one playlist overlap and that nothing overlaps a deletion, because otherwise names can be lost (`PlaylistRaces.RenameDuringDelete`); without the assumption, `PlaylistBreaks.AlwaysConsistentIff` says exactly when they are not.
