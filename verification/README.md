# omniFUSE: edits, caches and their promises

omniFUSE lets programs edit files in a local working directory and syncs them to a remote.
This project models the parts that decide whether an edit can be lost, and proves what they
keep over every run, every interleaving and every input. `dafny verify dfyconfig.toml`
checks all of it.

## What is modelled

**The S3 session** (`S3World`, `S3Refresh`, `S3Steps`, `S3History`, `S3Safety`, `S3Trust`,
`S3Agreement`, `S3Outcome`, `S3Session`). The bucket is a log of every write it ever accepted, and a
generation is a position in that log. A sync is a machine whose steps are the remote
requests; between any two of them other clients may write or delete, the user may edit,
another user of the shared cache may file what it read, and the poll worker may refresh.
The service honours `If-Match` (section 13.1.1 of RFC 9110) and `If-None-Match` (section
13.1.2 of RFC 9110) atomically and never issues an ETag twice for a key (`S3World.Honest`);
providers that omit ETags are allowed. The merge library, the UTF-8 check and the metadata
a provider reports are arbitrary functions (`S3World.Setting`). `S3Session.Session` is the
object that runs: every method is proved to be a run of the step machine, so the theorems
about runs are theorems about it. Its method `Others` stands for everybody else; callers
know only that some sequence of outside events took place.

**The sync engine** (`SyncEngine`, `SyncTiming`, `DirtyWorker`). The worker loop with debounce, trigger,
dirty set, protection index and retry, interleaved with polls that run a whole S3 refresh.
The engine model carries history (iteration numbers, counters) for its theorems; the worker
and index objects are tied to the same functions.

**The buffer cache** (`BufferStore`, `BufferRefinement`, `FileBuffers`). Buffers, LRU queue,
memory counter, disk and clock; the plain store holds files and pending writes and does what
each call is meant to do, and for each call the exact condition under which the code agrees
with it is proved. Every stamp comes from a clock that advances. `FileBuffers` holds the objects that
change in place, each method equal to the specification function.

**Supporting algorithms.** Inode numbers and subtree renames (`InodeHash`, `InodeMap`; the
hash is FNV-1a, section 2 of draft-eastlake-fnv), oldest-first eviction of the persistent
cache (`CacheEviction`), request framing (`Framing`), range copies and directory paging
(`Rfuse3Adapter`), and the daemon's mount registry under its lifecycle lock (`Registry`).

## Where the code keeps less than it seems to

Each of these is proved, with the exact condition where there is one.

- Adopting equal content stats a second time after the bytes were read. If another client
  writes other bytes in between, the manifest records a generation nobody read, and the next
  edit is uploaded over it without a merge (`S3Trust.AdoptionLeadsToBlindUploadExactly`, with
  a whole history in `S3Trust.AdoptionRaceLosesUpdate`).
- An edit made while a sync fetches the remote text is overwritten by the merge of the older
  text (`S3Agreement.EditDuringMergeSurvivesExactly`), and one made while a remotely deleted
  object is looked up can be removed (`S3Agreement.EditDuringRemoteDeleteSurvivesExactly`).
- An open file whose buffer the disk has overtaken writes over stale bytes, and its flush puts
  them on disk (`BufferRefinement.OvertakenWriteExactly`); a handle whose buffer was evicted or
  replaced never gets its bytes to disk (`FileBuffers.OpenFileMutation.Close`).
- Growing a file by truncation does not survive the flush
  (`BufferRefinement.TruncateSurvivesFlushExactly`).
- Renaming a file drops its pending writes, renaming over a cached file can keep serving the
  old contents, and pending writes of the target destroy the moved file
  (`BufferRefinement.RenameMovesContentsExactly`,
  `BufferRefinement.DirtyTargetDestroysTheMovedFile`).
- Protection starts when an event is consumed, not when it is queued
  (`SyncEngine.IndexedExactly`, `SyncEngine.QueuedEditIsUnprotected`). A failed batch is not
  retried and text merged by a refresh is not uploaded without another event
  (`SyncTiming.RetryWaitsForAnEvent`, `SyncTiming.MergedTextWaitsForAnEdit`), and the parked
  timer is only parked for a year (`SyncEngine.ParkedTimerSpinsFromTheStart`).
- A subtree rename depends on the hash map's order when a moved path lands on another moved
  path (`InodeMap.OrderIsIrrelevantExactly`), and re-creating a renamed path takes the
  renamed file's number (`InodeMap.RecreatingARenamedPathCollides`).
- Copying a range of a file forward within the file can read back what it wrote
  (`Rfuse3Adapter.SelfCopyCountsExactly`, `Rfuse3Adapter.SelfCopyIsOneWriteExactly`).

## Model

| member | source | states |
|---|---|---|
| S3Safety.NoLostUpdate | crates/omnifuse-s3/src/session.rs:330-504 | Every upload that succeeds, in every run from a fresh session and every interleaving with other clients, creates an absent key, replaces the generation with the ETag of an entry that the manifest held at some moment of the run, or replaces a generation whose true bytes were the remote input of the merge that produced the upload |
| S3History.UploadWasRecorded | crates/omnifuse-s3/src/session.rs:347-386 | An upload that relied on a recorded entry took it from the manifest, together with the bytes in hand when it was recorded |
| S3Safety.LiveCacheIsSound | crates/omnifuse-s3/src/session.rs:122-159 | A cache entry filed under the ETag now live on the remote holds that object's bytes in every reachable state, although a read may file newer bytes than its ETag |
| S3Safety.RunKeepsInv | crates/omnifuse-s3/src/session.rs:286-540 | The invariant behind both (cache, records, position and upload history) survives every step of the session and every outside event |
| S3Trust.NoBlindOverwrite | crates/omnifuse-s3/src/session.rs:330-504 | When no adoption is overtaken by other bytes, an upload that relied on the manifest replaced bytes the session had in hand when it recorded the entry |
| S3Trust.AdoptionIsSafeExactly | crates/omnifuse-s3/src/session.rs:359-375 | The second stat of an adoption leaves the records trustworthy if and only if the object did not change to other bytes since the read |
| S3Trust.AdoptionLeadsToBlindUploadExactly | crates/omnifuse-s3/src/session.rs:347-386 | From every reachable adoption with a usable ETag, the next edit is uploaded over the adopted generation, and blindly if and only if that generation has other bytes than those read |
| S3Trust.RaceShowsInEtags | crates/omnifuse-s3/src/session.rs:359-375 | The object changed hands between the two stats if and only if they report different ETags |
| S3Trust.AdoptionRaceLosesUpdate | crates/omnifuse-s3/src/session.rs:359-375 | A concrete run in which that race makes a later upload overwrite another client's bytes that nobody on this side ever read |
| S3Trust.RunKeepsTrust | crates/omnifuse-s3/src/session.rs:330-540 | Trust in the records survives every step of a run without such a race |
| S3Outcome.UndisturbedSyncEndsExactly | crates/omnifuse-s3/src/session.rs:330-504 | How a sync of an existing file ends when nobody else touches its path, from the starting files, records and bucket alone: a conflict if and only if an unrecorded file meets other remote bytes, an edited file lost its object, or a drifted object clashes with the edit; no ETag if and only if it would replace an object without a usable one; else synced. Also the text everyone then holds, when a new generation was made, what stays untouched otherwise, and that file, base, manifest and object agree |
| S3Outcome.NewFileIsUploaded | crates/omnifuse-s3/src/session.rs:376-381 | In particular a file that is neither recorded nor on the remote is there with its bytes after at most nine requests |
| S3Outcome.UndisturbedDeleteEndsExactly | crates/omnifuse-s3/src/session.rs:506-526 | How the sync of a missing file ends undisturbed: a recorded object whose metadata is the recorded one in every field is removed and forgotten, one that changed or vanished is a conflict that changes nothing, an unknown path needs nothing |
| S3Outcome.GivesUpWithTheThirdRefusal | crates/omnifuse-s3/src/session.rs:330-345 | Against any interference, a sync ends with a failed precondition if and only if three of its conditional writes were refused, and it never sees a fourth refusal |
| S3Outcome.FailsExactlyWhenSomethingVanished | crates/omnifuse-s3/src/session.rs:347-386 | A request ends the sync as failed if and only if the object vanished after it was seen, or a write was refused and the file to try again with is gone |
| S3Outcome.CacheFollowsRequestsExactly | crates/omnifuse-s3/src/session.rs:122-159 | A read files its bytes under the ETag asked for unless something is filed there, an accepted write hands its bytes to a background task, and no other request touches the content cache |
| S3Outcome.ReadsExactlyOnAMiss | crates/omnifuse-s3/src/session.rs:122-139 | A sync requests an object if and only if it needs its bytes and they are not filed under the ETag just seen |
| S3Safety.ListedReadIsTrue | crates/omnifuse-s3/src/session.rs:122-139 | In every reachable state a refresh reads the true bytes of every listed object that is still live, from the cache or the bucket |
| S3Agreement.NineRequestsSuffice | crates/omnifuse-s3/src/session.rs:330-386 | Three attempts of at most three requests each: after nine requests the sync has ended, whatever others do |
| S3Agreement.StepUsesOne | crates/omnifuse-s3/src/session.rs:330-526 | Each request strictly reduces the number of requests the sync can still send |
| S3Agreement.EveryUploadIsEntered | crates/omnifuse-s3/src/session.rs:476-504 | The upload history is complete: a step writes to the bucket exactly when it enters the write with the generation it made and the one it replaced |
| S3Agreement.EditDuringMergeSurvivesExactly | crates/omnifuse-s3/src/session.rs:400-451 | An edit made while the remote bytes are fetched survives if and only if the merge of the older text does not write the file, or writes that very text |
| S3Agreement.EditDuringRemoteDeleteSurvivesExactly | crates/omnifuse-s3/src/session.rs:453-474 | An edit made while a remotely deleted object is being looked up survives if and only if the older text already differed from the base |
| S3Steps.TakeMoves | crates/omnifuse-s3/src/session.rs:286-540 | No step and no event rewrites the bucket's past: writes are appended, and a key that changes hands gets a new generation |
| S3Refresh.RefreshKeepsEdits | crates/omnifuse-s3/src/session.rs:653-813 | A locally edited file is left as it is or becomes the three-way merge of base, file and remote bytes; no refresh deletes it |
| S3Refresh.RefreshUpdatesUnedited | crates/omnifuse-s3/src/session.rs:722-797 | When a refresh is applied, a changed key without local edits takes the remote bytes as file and base, or disappears with the remote object |
| S3Refresh.RefreshRecordsRemote | crates/omnifuse-s3/src/session.rs:653-720 | An applied refresh records each listed change at its generation with the remote bytes as base; file and base stay only where one of them already equals the remote bytes |
| S3Refresh.RefreshIsAllOrNothing | crates/omnifuse-s3/src/session.rs:595-720 | A refresh is applied if and only if there is a change, the mode allows it and no change is protected, unreadable, or an edit whose object is gone or clashes with it (a text that is not UTF-8, or three different texts that the library marks); otherwise files, base and manifest are untouched |
| S3Refresh.RefreshAnswersExactly | crates/omnifuse-s3/src/session.rs:595-720 | Every answer of a refresh and exactly when it is given, with the paths it names |
| S3Refresh.RefreshSettlesText | crates/omnifuse-s3/src/session.rs:722-797 | What an applied refresh leaves in file and base of a listed change: the remote bytes where there was no edit, else the side that changed or the text of the library over the remote bytes as base |
| S3Refresh.RefreshSparesCovered | crates/omnifuse-s3/src/session.rs:595-624 | Nothing at or below a protected path is changed by any refresh |
| S3Refresh.RefreshReachesFixpoint | crates/omnifuse-s3/src/session.rs:626-720 | After an applied refresh with ETags present the manifest has exactly the remote keys at their generations, so a second refresh answers that nothing changed |
| S3Refresh.RefreshKeywise | crates/omnifuse-s3/src/session.rs:653-720 | The whole refresh, whatever the order of its loops, does to each key what that key's own decision says and nothing else |
| S3Refresh.ApplyAllKeywise | crates/omnifuse-s3/src/session.rs:679-717 | The apply loop seen from one key, for every order of the decisions |
| S3Refresh.AppliedChange | crates/omnifuse-s3/src/session.rs:595-680 | In an applied refresh every change was classified, was not refused and was not protected |
| S3Refresh.RefreshReads | crates/omnifuse-s3/src/session.rs:653-672 | The cache gains exactly what was read, change by change, up to where the refresh stopped |
| S3Session.Session.DiffRemote | crates/omnifuse-s3/src/session.rs:626-651 | Yields each key whose listed generation is not the recorded one, and each recorded key gone from the listing, once |
| S3Session.Session.ProtectedAmong | crates/omnifuse-s3/src/session.rs:602-608 | Collects the protected changes in order |
| S3Session.Session.ClassifyChange | crates/omnifuse-s3/src/session.rs:722-797 | Decides one change: nothing if and only if it cannot be read, a refusal if and only if it conflicts, else what to do with file, base and manifest; and files what it read in the cache |
| S3Session.Session.ApplyRemoteChanges | crates/omnifuse-s3/src/session.rs:653-720 | Both loops together: unreadable, refused, or every decision carried out |
| S3Session.Session.ApplyDecision | crates/omnifuse-s3/src/session.rs:682-716 | Carries out one decision on file, base and manifest |
| S3Session.Session.RefreshRemote | crates/omnifuse-s3/src/session.rs:595-624 | The in-place refresh is the refresh function for the order it visited |
| S3Session.Session.ReadObjectCached | crates/omnifuse-s3/src/session.rs:122-139 | A hit answers at once; a miss reads whatever is live after others have acted, and files it under the ETag asked for |
| S3Session.Session.PutAndRecord | crates/omnifuse-s3/src/session.rs:476-504 | One conditional write: refused without effect, or accepted and recorded in base, manifest and background cache write |
| S3Session.Session.MergeRemoteDrift | crates/omnifuse-s3/src/session.rs:388-451 | The merge branch, including the merged text written to the file before the conditional write, is a run of the step machine |
| S3Session.Session.HandleRemoteDelete | crates/omnifuse-s3/src/session.rs:453-474 | An unedited file disappears with its records, an edited one is a conflict |
| S3Session.Session.AdoptEqual | crates/omnifuse-s3/src/session.rs:359-375 | Equal content is recorded under the second stat, different content is a conflict |
| S3Session.Session.UploadOrMergeOnce | crates/omnifuse-s3/src/session.rs:347-386 | One attempt ends, or leaves the system where the next attempt starts |
| S3Session.Session.UploadOrMerge | crates/omnifuse-s3/src/session.rs:330-345 | The retry loop always ends inside the loop; the error after it cannot be reached |
| S3Session.Session.DeleteRemote | crates/omnifuse-s3/src/session.rs:506-526 | Stat, compare, unconditional delete, with others acting in between |
| S3Session.Session.SyncOne | crates/omnifuse-s3/src/session.rs:314-328 | Uploads what exists and deletes what does not |
| S3Session.Session.SyncDirty | crates/omnifuse-s3/src/session.rs:286-312 | Each path is synced in turn within one run of the step machine, refusals are collected in order, any other error ends the batch, and the invariant is kept |
| S3Session.Session.SaveSyncedState | crates/omnifuse-s3/src/session.rs:536-539 | Base and manifest are recorded together |
| S3Session.ClassifyingContinues | crates/omnifuse-s3/src/session.rs:661-667 | Filing what one change read never alters the decision on a later one |
| S3Steps.RunConcat | crates/omnifuse-s3/src/session.rs:286-312 | Consecutive syncs are one run |
| S3World.SameGenerationIsExact | crates/omnifuse-s3/src/manifest.rs:43-54 | Recorded and current metadata compare equal if and only if they describe the same generation and the provider gave it an ETag |
| TextMerge.RefusedExactlyWhenMarked | crates/omnifuse-core/src/text_merge.rs:41-88 | Each of the five decisions holds on exactly one set of inputs; refusal needs different edits on both sides and conflict markers from the library |
| TextMerge.MarkersByPosition | crates/omnifuse-core/src/text_merge.rs:41-64 | A text counts as marked if and only if seven less-than or seven greater-than signs stand in a row somewhere in it |
| TextMerge.OneSidedEditsWin | crates/omnifuse-core/src/text_merge.rs:66-88 | An edit on one side only is what both sides settle on |
| TextMerge.BothSidesAgree | crates/omnifuse-core/src/text_merge.rs:66-88 | Swapping the sides swaps uploading with accepting and settles on the same text |
| SyncEngine.NoDirtyPathIsDropped | crates/omnifuse-core/src/sync_engine.rs:191-243 | At every loop head of every run a tracked path whose event was consumed is dirty and indexed, or was in a batch started after that event and answered with success or conflict |
| SyncEngine.PollsSpareDirtyPaths | crates/omnifuse-core/src/sync_engine.rs:374-483 | From the moment a path's event is consumed until a sync result clears it, no poll changes file, base or manifest entry of the path or of anything below it, also while a sync is in flight |
| SyncEngine.SyncsAreBounded | crates/omnifuse-core/src/sync_engine.rs:199-243 | Before the parked timer's instant, syncs are at most the events consumed plus the modifications among them |
| SyncEngine.ClosedFileSyncsAtOnce | crates/omnifuse-core/src/sync_engine.rs:212-243 | A closed tracked file is in a non-empty, tracked-only batch in the same iteration, and a pending trigger at a loop head means nothing is dirty |
| SyncEngine.FlushSyncsAtOnce | crates/omnifuse-core/src/sync_engine.rs:212-243 | A consumed flush starts a sync in the same iteration with exactly the tracked dirty paths |
| SyncEngine.QueueIsBounded | crates/omnifuse-core/src/sync_engine.rs:106 | The event queue never holds more than 256 events and turns one away exactly when it holds that many |
| SyncEngine.ShutdownSyncsOnceMore | crates/omnifuse-core/src/sync_engine.rs:217-229 | From every reachable state a shutdown event, or the closed channel, starts one last sync with exactly the tracked dirty paths, after whose answer the worker stops and never syncs again; with none it stops at once and every tracked edit it consumed has been delivered |
| SyncEngine.CleanShutdownDeliversAll | crates/omnifuse-core/src/sync_engine.rs:217-369 | When that last sync is answered with success or conflict, every tracked path whose event was consumed was in an answered batch started at or after its last event |
| SyncTiming.ModifiedFileSyncsAfterDebounce | crates/omnifuse-core/src/sync_engine.rs:202-243 | Over every run without another consumed event, a modified tracked file is in the batch of the first timer that fires, that timer fires when the debounce period has passed, and until then nothing is synced |
| SyncTiming.RetryWaitsForAnEvent | crates/omnifuse-core/src/sync_engine.rs:217-243 | A batch that came back offline or failed stays dirty but is not retried, before the parked timer's instant, until the worker consumes another event |
| SyncTiming.MergedTextWaitsForAnEdit | crates/omnifuse-core/src/sync_engine.rs:374-483 | Text a refresh merged into a file marks nothing dirty: the file is in no batch of any run until an event of its own is consumed |
| SyncTiming.SleepsUntilDue | crates/omnifuse-core/src/sync_engine.rs:217-236 | Without consumed events the worker stands still until the pending sleep ends |
| SyncEngine.OnlyResultsClear | crates/omnifuse-core/src/sync_engine.rs:254-369 | A path leaves the index in one transition only: the answer that clears it |
| SyncEngine.StaysIndexed | crates/omnifuse-core/src/sync_engine.rs:254-369 | Over whole runs a path stays indexed until such an answer |
| SyncEngine.ParkedTimerSpins | crates/omnifuse-core/src/sync_engine.rs:191-243 | From the parked timer's instant on, with an unreachable remote the worker syncs any number of times without an event |
| SyncEngine.ParkedTimerSpinsFromTheStart | crates/omnifuse-core/src/sync_engine.rs:191-243 | So the bound fails from a fresh start: one closed file and any number of syncs |
| SyncEngine.IndexedExactly | crates/omnifuse-core/src/sync_engine.rs:201-362 | A tracked path is protected if and only if one of its events was consumed and no sync result has cleared it since |
| SyncEngine.QueuedEditIsUnprotected | crates/omnifuse-core/src/sync_engine.rs:201-215 | So an edit queued while its path is being synced is unprotected once that sync succeeds |
| SyncEngine.RunKeeps | crates/omnifuse-core/src/sync_engine.rs:180-369 | The invariant of the worker loop survives every transition, with polls and outside changes interleaved |
| DirtyWorker.IterationMatchesEngine | crates/omnifuse-core/src/sync_engine.rs:238-243 | The worker object's iteration is the engine model's start of a sync followed by its answer |
| DirtyWorker.DirtyWorker.OnEvent | crates/omnifuse-core/src/sync_engine.rs:201-232 | Consuming an event changes dirty set, index, deadline and trigger as the engine model says |
| DirtyWorker.DirtyWorker.DrainTracked | crates/omnifuse-core/src/sync_engine.rs:262-266 | The dirty set is emptied into a duplicate-free list of its tracked paths |
| DirtyWorker.DirtyWorker.Settle | crates/omnifuse-core/src/sync_engine.rs:284-362 | Success clears the batch, conflict clears all but the refused files, anything else puts the batch back |
| DirtyWorker.DirtyWorker.DoSync | crates/omnifuse-core/src/sync_engine.rs:254-369 | One batch: drained, answered, settled |
| DirtyWorker.DirtyWorker.MaybeSync | crates/omnifuse-core/src/sync_engine.rs:238-243 | A pending trigger starts a sync when something is dirty |
| DirtyWorker.DirtyIndex.MarkDirty | crates/omnifuse-core/src/dirty_index.rs:23-25 | Adds one path |
| DirtyWorker.DirtyIndex.MarkClean | crates/omnifuse-core/src/dirty_index.rs:28-30 | Removes one path |
| DirtyWorker.DirtyIndex.IsProtected | crates/omnifuse-core/src/dirty_index.rs:40-45 | True exactly for indexed paths and everything below them |
| BufferRefinement.LoadsAreFaithful | crates/omnifuse-core/src/buffer.rs:224-259 | After any run from an empty cache, loading an existing file answers its pending writes, or else exactly the disk bytes; only a rename that leaves a stale clean buffer in charge is excluded |
| BufferRefinement.KeepsInvExactly | crates/omnifuse-core/src/buffer.rs:186-427 | A call keeps the cache coherent if and only if it is not such a rename |
| BufferRefinement.RunRefines | crates/omnifuse-core/src/buffer.rs:186-427 | Runs of harmless calls are the same runs on a plain store of files with pending writes: caching, freshness checks and eviction are invisible |
| BufferRefinement.HarmlessRunsMatchThePlainStore | crates/omnifuse-core/src/buffer.rs:224-259 | After such a run a load answers what the plain store holds |
| BufferRefinement.DoRefinesExactly | crates/omnifuse-core/src/buffer.rs:186-427 | Each single call keeps the cache coherent and does what it is meant to do if and only if it is harmless: a write whose buffer agrees with the file outside the range, a truncation that does not grow, a rename that meets no other pending writes and no stale buffer, a clear that visits every unflushed buffer |
| BufferRefinement.LoadRefines | crates/omnifuse-core/src/buffer.rs:224-259 | Loading changes nothing a reader can see and answers what the plain store holds |
| BufferRefinement.LoadExactly | crates/omnifuse-core/src/buffer.rs:224-259 | What a load does to the cache in each of its three cases: a dirty or fresh buffer answers and goes to the end of the queue, else the disk bytes answer and are filed in place of the overtaken buffer with room made as for any filing, and a missing file changes nothing |
| BufferRefinement.FlushRefines | crates/omnifuse-core/src/buffer.rs:353-377 | Flush moves the pending bytes of a cached buffer to disk, leaves what readers see, and takes over the disk stamp |
| BufferRefinement.ClearRefines | crates/omnifuse-core/src/buffer.rs:384-427 | Clear puts every pending byte on disk, then forgets the buffers, if and only if it visited every buffer whose bytes the disk does not have |
| BufferRefinement.CreateRefines | crates/omnifuse-core/src/file_mutations.rs:72-93 | Creating a file gives it empty contents on disk and in the cache |
| BufferRefinement.OvertakenWriteExactly | crates/omnifuse-core/src/file_mutations.rs:250-258 | A write through a clean buffer does what it is meant to do if and only if buffer and file agree outside the range; the next flush puts the buffer's old bytes with the data on disk in any case |
| BufferRefinement.WritesAgreeExactly | crates/omnifuse-core/src/buffer.rs:73-93 | The same write gives the same contents if and only if the contents agreed outside its range |
| BufferRefinement.TruncateSurvivesFlushExactly | crates/omnifuse-core/src/buffer.rs:112-120 | A requested size survives the flush if and only if it does not grow the buffered contents |
| BufferRefinement.RenameMovesContentsExactly | crates/omnifuse-core/src/file_mutations.rs:115-135 | After a rename a reader of the target gets the target's old buffer if that is dirty or not older than the moved file, and otherwise the moved file's disk bytes; the rename moves what readers saw if and only if that is the same |
| BufferRefinement.DirtyTargetDestroysTheMovedFile | crates/omnifuse-core/src/file_mutations.rs:115-135 | Pending writes of an overwritten target outlive the rename and their flush replaces the moved bytes |
| BufferStore.EvictIsSound | crates/omnifuse-core/src/buffer.rs:275-317 | Eviction terminates, drops and alters no dirty buffer, keeps every cached path queued, and ends within the budget or with dirty buffers only |
| BufferStore.EvictFollowsRecency | crates/omnifuse-core/src/buffer.rs:283-316 | The evicted paths are the shortest prefix of the clean buffers, in the order of their oldest queue entries, that makes the counter fit, or all of them, despite rotated dirty entries and paths queued twice |
| BufferStore.TouchedGoesLast | crates/omnifuse-core/src/buffer.rs:262-272 | A clean buffer just used becomes the last candidate for eviction and the order of the others stays |
| BufferStore.CachingMakesRoomExactly | crates/omnifuse-core/src/buffer.rs:192-213 | Filing a buffer gives up the shortest sufficient prefix of the eviction candidates when eviction is on and nothing when it is off; the counter is what was kept plus the new bytes, and with eviction on it is within the budget or every other buffer left is dirty |
| BufferStore.WriteAt | crates/omnifuse-core/src/buffer.rs:73-93 | A write fills the range with the data, zero-fills a gap and leaves every other byte |
| BufferStore.AdjacentWrites | crates/omnifuse-core/src/buffer.rs:73-93 | Two writes end to end are one write of both |
| BufferStore.Without | crates/omnifuse-core/src/buffer.rs:262-272 | Removing a queue entry keeps every other path |
| FileBuffers.FileBuffer.Read | crates/omnifuse-core/src/buffer.rs:58-68 | The in-place read is the specified slice |
| FileBuffers.FileBuffer.Write | crates/omnifuse-core/src/buffer.rs:73-93 | The in-place write grows, overwrites and marks the buffer |
| FileBuffers.FileBuffer.Truncate | crates/omnifuse-core/src/buffer.rs:112-120 | Shrinks the contents, records any size |
| FileBuffers.FileBufferManager.Touch | crates/omnifuse-core/src/buffer.rs:262-272 | Moves the first occurrence to the back of the queue |
| FileBuffers.FileBufferManager.MaybeEvict | crates/omnifuse-core/src/buffer.rs:275-317 | The eviction loop over the deque is the eviction function, with its termination measure |
| FileBuffers.FileBufferManager.CacheWithMtime | crates/omnifuse-core/src/buffer.rs:192-213 | Makes room if and only if eviction is on, by the shortest sufficient prefix of the candidates, then files the new buffer and counts it on top of what was kept |
| FileBuffers.FileBufferManager.Remove | crates/omnifuse-core/src/buffer.rs:320-335 | Drops buffer, queue entry and count |
| FileBuffers.FileBufferManager.GetOrLoad | crates/omnifuse-core/src/buffer.rs:224-259 | Answers from a dirty or fresh buffer, which becomes the latest in the queue, else reloads from disk |
| FileBuffers.FileBufferManager.Flush | crates/omnifuse-core/src/buffer.rs:353-377 | Writes a dirty buffer found by path and takes over the disk stamp |
| FileBuffers.FileBufferManager.FlushAll | crates/omnifuse-core/src/buffer.rs:384-402 | Flushes every dirty buffer once |
| FileBuffers.FileBufferManager.Clear | crates/omnifuse-core/src/buffer.rs:421-427 | Flushes, then empties the cache and the counter |
| FileBuffers.OpenFileMutation.Write | crates/omnifuse-core/src/file_mutations.rs:250-258 | A write changes the handle's buffer and sends one event; the cache sees it if and only if the handle is still attached |
| FileBuffers.OpenFileMutation.Truncate | crates/omnifuse-core/src/file_mutations.rs:266-284 | Cuts the buffer, then the disk file; when the file is gone the call fails with the buffer already cut and no event sent |
| FileBuffers.OpenFileMutation.Close | crates/omnifuse-core/src/file_mutations.rs:290-312 | Flushes by path, then announces the close: an attached handle leaves all its bytes on disk, a detached one none |
| FileBuffers.DirtySink.Send | crates/omnifuse-core/src/file_mutations.rs:337-342 | Queues an event while there is room |
| InodeHash.ComputeInode | crates/unifuse/src/inode.rs:73-105 | The loop computes the FNV-1a fold over the kind prefix and the path, with both reserved numbers moved |
| InodeHash.KindsHaveDifferentHashes | crates/unifuse/src/inode.rs:82-92 | For every path the raw file hash and the raw directory hash differ |
| InodeHash.NeighboursHaveDifferentHashes | crates/unifuse/src/inode.rs:89-92 | Two paths of one kind that differ in one byte never share a raw hash, whatever surrounds the byte |
| InodeHash.KindsCollideExactlyThroughFixups | crates/unifuse/src/inode.rs:94-102 | Non-root numbers are never 0 or 1, and the two kinds of one name coincide if and only if one raw hash is a reserved number and the other is its replacement |
| InodeHash.RootNumberExactly | crates/unifuse/src/inode.rs:73-80 | The root number belongs to the empty path, the slash and the dot, and to no other path |
| InodeHash.RawHashIsFnv1a | crates/unifuse/src/inode.rs:82-92 | The fold is 64-bit FNV-1a with its published offset and prime over the kind prefix and the path |
| InodeHash.FoldIsInjective | crates/unifuse/src/inode.rs:89-92 | Different states stay different through any common suffix |
| InodeHash.TimesPrimeIsInvertible | crates/unifuse/src/inode.rs:91-91 | Multiplying by the prime modulo 2^64 loses nothing |
| InodeHash.XorIsInjective | crates/unifuse/src/inode.rs:90-90 | Exclusive or with one operand loses nothing |
| InodeMap.OrderIsIrrelevantExactly | crates/unifuse/src/inode.rs:176-196 | The update loop is one simultaneous prefix substitution in every visiting order if and only if no moved path lands on another moved path |
| InodeMap.RenameIsSubstitution | crates/unifuse/src/inode.rs:176-196 | Under that condition the result of any order is the substitution |
| InodeMap.UnrelatedLandsOutside | crates/unifuse/src/inode.rs:176-196 | The condition holds in every table when neither path is a prefix of the other |
| InodeMap.SubstitutionKeepsNumbers | crates/unifuse/src/inode.rs:176-196 | The substitution keeps every moved number and the two-way invariant; away from where the subtree lands, the subtree is gone and every other path is as before |
| InodeMap.NestedOrderShows | crates/unifuse/src/inode.rs:190-195 | When the condition fails, an order that visits the two paths last loses an entry |
| InodeMap.RootKeepsItsNumber | crates/unifuse/src/inode.rs:48-61 | A new table is two-way with the root as number 1, and no path that is not written as a root ever takes that number |
| InodeMap.RegisterKeepsConsistencyExactly | crates/unifuse/src/inode.rs:111-139 | Registration keeps the table two-way if and only if the path is known or its number is not in use by another path; a known path keeps its number and no other path is affected |
| InodeMap.RecreatingARenamedPathCollides | crates/unifuse/src/inode.rs:111-168 | Re-creating a renamed path always takes the renamed file's number and cuts it off |
| InodeMap.ForgetKeepsConsistency | crates/unifuse/src/inode.rs:154-159 | Removal keeps the table two-way, frees path and number, and leaves every other path |
| InodeMap.RenameKeepsConsistency | crates/unifuse/src/inode.rs:162-173 | A single rename moves the number, frees the old path, leaves every other path, and keeps the two-way invariant |
| InodeMap.InodeTable.GetOrInsert | crates/unifuse/src/inode.rs:111-139 | A known path keeps its number, a new one is entered in both maps |
| InodeMap.InodeTable.Remove | crates/unifuse/src/inode.rs:154-159 | Removes both directions |
| InodeMap.InodeTable.Rename | crates/unifuse/src/inode.rs:162-173 | Moves one entry |
| InodeMap.InodeTable.RenameSubtree | crates/unifuse/src/inode.rs:176-196 | The collected updates carried out in the order the map was visited, each registered path of the subtree once |
| InodeMap.InodeTable.CollectUpdates | crates/unifuse/src/inode.rs:177-189 | Every registered path of the subtree once, with its number and target |
| CacheEviction.EvictionMeetsBudget | crates/omnifuse-core/src/persistent_cache.rs:246-271 | Nothing is deleted within the budget; else what is deleted is the removable part of the shortest stretch of the oldest-first order that brings the total, capped at 64 bits, down to the budget, or of all of it. The bytes add up, nothing newer goes before anything older, and without failing removals the rest fits the budget |
| CacheEviction.EvictsShortestPrefix | crates/omnifuse-core/src/persistent_cache.rs:257-269 | The loop stops at the least prefix whose removable blobs free enough, or at the end |
| CacheEviction.SortIsStable | crates/omnifuse-core/src/persistent_cache.rs:256-256 | Oldest first, nothing lost, ties in walk order |
| CacheEviction.TotalOf | crates/omnifuse-core/src/persistent_cache.rs:246-249 | The walk reports the sum, saturated at the width of the counter |
| CacheEviction.CacheDirectory.EvictToBudget | crates/omnifuse-core/src/persistent_cache.rs:246-271 | The directory loses exactly the evicted files, and none under the budget |
| Framing.Reader.ReadBoundedLine | crates/omnifuse-app/src/daemon/server.rs:394-427 | One call yields the next newline-delimited piece of the concatenated stream, whatever the buffer fills, fails exactly on a piece over the limit, and consumes nothing past the newline |
| Framing.Reader.HandleClient | crates/omnifuse-app/src/daemon/server.rs:371-392 | The dispatched requests and the end of the conversation depend on the concatenated stream alone |
| Framing.RequestsArrive | crates/omnifuse-app/src/daemon/server.rs:371-427 | Requests sent line by line arrive as sent, and what follows them is judged as if it stood alone |
| Framing.LineEndingsDoNotMatter | crates/omnifuse-app/src/daemon/server.rs:371-392 | Carriage returns before the newline are not part of a request, a blank line is no request and does not end the conversation, and a last line needs no newline |
| Framing.FailsExactly | crates/omnifuse-app/src/daemon/server.rs:394-427 | A conversation fails if and only if some piece is longer than a mebibyte or not text |
| Framing.PiecesPartition | crates/omnifuse-app/src/daemon/server.rs:394-427 | The pieces are the stream cut after each newline and nowhere else |
| Framing.Piece | crates/omnifuse-app/src/daemon/server.rs:408-411 | A piece is a prefix of the stream whose only newline is its last byte |
| Framing.TrimEnd | crates/omnifuse-app/src/daemon/server.rs:382-385 | What is trimmed from the end is all the carriage returns and newlines there and nothing else |
| Rfuse3Adapter.CopyFileRange | crates/unifuse/src/rfuse3_adapter.rs:838-886 | Between two files: the bytes copied are the lesser of the request and what the source has left, and the destination is one write of that range; on one file: the self-feeding loop |
| Rfuse3Adapter.SelfCopyIsOneWriteExactly | crates/unifuse/src/rfuse3_adapter.rs:855-883 | Within one file the loop is one write of the original range, for every content, if and only if the destination is not after the source, or there is nothing to read, or the source is long enough and its destination does not meet it or it fits one chunk |
| Rfuse3Adapter.SelfCopyCountsExactly | crates/unifuse/src/rfuse3_adapter.rs:855-883 | Within one file the bytes reported are the lesser of the request and what was left if and only if the destination is not after the source, or the source is long enough, or there is nothing to read; otherwise the whole request, fed by the loop's own output |
| Rfuse3Adapter.ReadDir | crates/unifuse/src/rfuse3_adapter.rs:358-416 | The reply holds the entries past the offset, each with its resume offset |
| Rfuse3Adapter.ResumingLosesNothing | crates/unifuse/src/rfuse3_adapter.rs:369-408 | However a reader pages through a listing, it sees every entry once and in order |
| Rfuse3Adapter.ListingIsComplete | crates/unifuse/src/rfuse3_adapter.rs:369-408 | From the start the listing is the two dots and then the names in order, each with the offset that resumes after it |
| Registry.LiveTasksShareTheirManager | crates/omnifuse-app/src/daemon/server.rs:91-109 | At every moment two live mounts of one instance share the one manager that a further mount would get |
| Registry.OneTaskPerMountPoint | crates/omnifuse-app/src/daemon/server.rs:170-216 | At every moment a mount point has at most one live task |
| Registry.RegistryMatchesTasks | crates/omnifuse-app/src/daemon/server.rs:170-216 | Whenever the lock is free, the registry lists exactly the live tasks and keeps a manager exactly for the instances in use |
| Registry.StartMountsExactly | crates/omnifuse-app/src/daemon/server.rs:170-216 | A start under the lock from every reachable state: an occupied mount point is refused without effect, a free one gets a new task and entry, sharing the instance's manager or making the one it lacks |
| Registry.CleanUpUnmountsExactly | crates/omnifuse-app/src/daemon/server.rs:91-109 | The clean-up of an ended task under the lock frees its mount point, and drops the instance's manager if and only if no other live task uses it |
| Registry.WithoutLockAnEntryIsStranded | crates/omnifuse-app/src/daemon/server.rs:180-213 | Without the lock, from every reachable state, a task that ends before its entry is inserted leaves the mount point taken by a task that is done, after every further run |
| Registry.RunKeeps | crates/omnifuse-app/src/daemon/server.rs:170-216 | The invariant survives every step of starting and cleaning up, with tasks ending at any moment |

## Left out

- S3Safety.NoLostUpdate: covers uploads; `delete_remote` compares and then deletes without a condition, so no such claim holds for it (modelled as it is in S3Session.Session.DeleteRemote)
- S3Session.Session.RefreshRemote: reads and applying form one step after the listing; the listing itself may be stale by then
- S3Session.Session.SyncDirty: offline answers and other I/O errors of the service are not modelled, so the only early end of a batch is a missing object or a missing ETag
- S3Trust.AdoptionRaceLosesUpdate: one concrete history from a fresh session; the condition from every reachable adoption is in AdoptionLeadsToBlindUploadExactly
- BufferRefinement.RunRefines: for runs of harmless calls; DoRefinesExactly says for every other call that it does not do what it is meant to do
- BufferRefinement.LoadsAreFaithful: excludes runs with a rename that leaves a stale clean buffer in charge, after which it is false (KeepsInvExactly, RenameMovesContentsExactly)
- BufferRefinement.RenameMovesContentsExactly: for files; the buffers below a renamed directory stay under their old paths
- BufferStore.EvictIsSound: speaks of the memory counter, which ignores growth by writes and counts a re-cached path twice, not of the true sum of sizes
- FileBuffers.FileBufferManager.GetOrLoad: each method of the manager is one atomic step; locking inside it is not modelled
- SyncEngine.PollsSpareDirtyPaths: for the S3 backend; the Git and Wiki refreshes compare absolute with relative paths
- SyncEngine.SyncsAreBounded: stated up to the parked timer's instant, after which it is false (ParkedTimerSpins)
- InodeHash.ComputeInode: takes the path as its UTF-8 bytes; the lossy conversion from an OS string is a parameter (InodeTable.render)
- CacheEviction.CacheDirectory.EvictToBudget: the recursive directory walk is given as its listing, and which removals fail is a parameter
- CacheEviction.EvictionMeetsBudget: the budget is met when the sum of sizes fits the 64-bit counter; beyond that the saturated counter is what the loop works with
- Framing.Reader.HandleClient: what dispatching answers and the writing of answers are not modelled; the UTF-8 check is a parameter
- Rfuse3Adapter.CopyFileRange: offsets are unbounded, and events queued by the writes are not modelled here
- Rfuse3Adapter.ReadDir: inode numbers of the entries are left to InodeMap
- Registry.RegistryMatchesTasks: unmounting, its timeout and shutdown only wait for tasks to end and are not modelled
- Path field of a recorded object: always the key, so omitted
- Initial materialisation of a working directory: overwrites local files from the remote without a decision
- Manifest and base files on disk, schema markers, cache open and reset: plain storage
- Diff3, SHA-256, JSON, OpenDAL and gitignore matching: library code, here parameters or left out
- Git and Wiki backends, path canonicalisation, file-versus-directory clashes, symbolic links
- FUSE attributes, errno mapping, mounting, CLI, GUI, logging, event payloads, metrics, sockets and PID files
- Widths of file sizes and clocks: unbounded here; only the inode arithmetic and the eviction counter depend on 64 bits
