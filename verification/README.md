# Verified models of Tura's supervision, storage and media components

This Dafny project models the parts of Tura whose correctness rests on many
functions at once, and proves what they promise. One module stands for one
component.

- **Router supervision** (`RouterWorld`, `RouterProcess`, `RouterLockRecord`): the
  gateway starts, adopts, retries, signals and stops one router daemon per home
  directory. The operating system is an adversary that may act between any two
  system calls: pids die and are taken over, the lock and address files change,
  sockets answer or do not. A ghost trace records every act of the gateway, every answer
  of the system to a read, a connection, a message or a wait, and what the gateway
  concluded from them. The safety theorem says that in every run each conclusion
  rests on the answers just before it and on what the system showed at that moment;
  that each kill was justified then; that each endpoint was adopted right after
  passing one of three tests; and that requests go only to adopted addresses. The
  operations' contracts say what was probed, vetted and adopted in that call, that
  nothing is spawned or signalled before a look found no healthy router of ours, that
  a call returns what the last answer says, and when an operation may end in an error.
- **Process locks** (`ProcessLock`): any number of processes run acquire and drop on
  one path as single system calls, in any order, may die at any point, and may find
  that unlocking or removing fails. Every file has at most one owner, but mutual
  exclusion on the path fails: the module proves that a drop that removes a file
  another call has open is exactly what breaks it, and gives such a run for calls
  that write any records. The router's own daemon lock
  (`crates/router/src/daemon.rs`, lines 242 to 283) takes the same steps.
- **Tray menu** (`Tray`): in-place updates show what a full rebuild would.
- **Agent store** (`AgentStore`): which directory an id or alias deletes, and which
  operations of a run endanger a default agent.
- **Contact sheets** (`ContactSheets`, `ContactSheetImages`, `ContactSheetLayout`):
  conservation of the images through two levels of compaction, told by the fields of
  the previews alone, and the pixels of a rendered sheet.
- **Concurrent workers** (`Downloads`, `ReadMediaRunner`): results do not depend on
  the schedule, with workers that fail or die.
- **Transformations** (`CliWords`, `ReadMediaArgs`, `ReadMediaLines`,
  `ReadMediaValues`, `ContentTypeFallback`, `ExaResults`, `ExaLines`, `PdfLiterals`,
  `GlobalOptions`, `XmlEscape`): round trips, loops equal to a simple form, exact
  counts, and what every accepted command line, value and reply says.
- **Image sizes** (`ImageDimensions`): bounds of every rounded canvas, and the one label
  in lowest terms that gives a canvas back.
- `Text`, `Json`, `Sequences`, `SheetItems` and `Wrappers` hold the string operations,
  JSON values and small types the components share, each with lemmas that say what it
  does.

Code that changes state step by step is modelled by classes and methods with loops,
each proved against a specification function or predicate; the properties of those
specifications are lemmas. Protocols are step machines whose theorems quantify over
every schedule.

Where a promise does not hold as stated, the code is modelled as it is and the exact
condition is proved:

- Two live owners of one lock path are possible; the exact condition is an orphaned
  handle, which only a racing removal creates (`ProcessLock.OrphanStep`,
  `ProcessLock.OrphanIsExactlyTheDanger`, `ProcessLock.MutualExclusionCanFail`).
- The router's lock record reads back as written if and only if the home directory is
  one line without surrounding blanks (`RouterLockRecord.RecordRoundTrip`).
- A tray rebuild that the desktop refuses leaves a cut-off menu, which returning to the
  previous snapshot does not repair (`Tray.RefusedThenBack`).
- Saves keep the agent store aligned if and only if names have no surrounding blanks;
  in an aligned store a delete aims at a default agent if and only if its id resolves to
  another agent whose directory name is that agent's with blanks around it, or the id is
  its own and the look-up could not read it
  (`AgentStore.SaveAlignsExactlyTrimmedNames`, `AgentStore.HitsDefaultExactly`,
  `AgentStore.BlankDirectoryHitsDefaultAgent`, `AgentStore.UnreadDefaultIsHit`).
- A batch of downloads leaves earlier files alone whatever fails, except that an
  existence probe that errs on a taken name lets the rename replace that file
  (`Downloads.EarlierFilesStay`, `Downloads.OverwritingNeedsBadProbe`,
  `Downloads.BadProbeReplaces`).
- The end of a PDF literal is the one the format means if and only if no unescaped
  parenthesis opens before it (`PdfLiterals.EndIsTheStandards`).
- Shrinking an image to a provider's largest edge stays within it if and only if that
  edge is at least 64 and less than 8 above a multiple of 16 (`ImageDimensions.ShrunkFits`).
- With a limit of zero the Exa scan still returns one result (`ExaResults.CollectResults`).

`dafny verify dfyconfig.toml` checks the whole project.

## Model

| member | source | states |
|---|---|---|
| `RouterProcess.RunOperations` | crates/gateway/src/router_process.rs:107-365 | Any sequence of ensure_started, restart, status, shutdown, call and call_existing, on a system where pids die and are reused and files change between system calls: every conclusion rests on what the system answered or showed just before, every kill is justified at its moment, every adoption comes right after its endpoint passed one of the three tests, every request goes to an adopted address, and the restart counter is the number of children spawned |
| `RouterProcess.KilledProcesses` | crates/gateway/src/router_process.rs:774-846 | In such a run a killed pid is alive at that moment and is either a child this gateway spawned and has not reaped, or another process than the gateway that a router lock record of this build and home names by pid and start time |
| `RouterProcess.SignalsHaveReasons` | crates/gateway/src/router_process.rs:689-722 | During a probe a process is signalled only if the file just read names it and its address gave no answer at all, so a router that answered is left alone; at a stop only right after the deadline |
| `RouterProcess.HealthIsAnswered` | crates/gateway/src/router_process.rs:689-722 | A router is taken to be healthy only when the file was just read, its endpoint was asked, and the answer says ok; its identity is the file's unless the answer gives another |
| `RouterProcess.LacksAreSeen` | crates/gateway/src/router_process.rs:647-711 | No router is found only where the file was just read and is missing or of no use, or its endpoint just gave no positive answer or refused a connection |
| `RouterProcess.VettingsAreOfTheLatestLook` | crates/gateway/src/router_process.rs:426-479 | A vetted endpoint is the one found by the latest look at the file, and it passed its test on what the system showed at that moment |
| `RouterProcess.AdoptionsAreVetted` | crates/gateway/src/router_process.rs:436-445 | An adopted endpoint, pid and start time included, was found by the latest look at the file and passed the lock-identity, live-child or fingerprint test immediately before, on what the system showed: an address is never adopted for its past |
| `RouterProcess.RequestsAreAdopted` | crates/gateway/src/router_process.rs:426-505 | Every request goes to an address adopted earlier in the run, right after its endpoint was justly vetted |
| `RouterProcess.GuardedAttempt` | crates/gateway/src/router_process.rs:114-147 | If all children spawned so far are gone, an attempt that spawns at most one more keeps every spawn after the end of the child before it |
| `RouterProcess.RouterProcess.EnsureStarted` | crates/gateway/src/router_process.rs:107-154 | Ends Ok only with the address of an endpoint that in this call answered its health check and was then vetted and adopted, and no error left; adopts a healthy router without spawning or signalling anything; spawns and signals only after a look found no healthy router of ours; at most two children, the second only after the first is killed or seen to exit; an error only if something was refused or both children were given up |
| `RouterProcess.RouterProcess.StartWithRetry` | crates/gateway/src/router_process.rs:114-153 | The two attempts: bounds on spawns, their order, the endpoint that in this call was healthy, vetted and adopted, and the reasons for an error |
| `RouterProcess.RouterProcess.StartAttempt` | crates/gateway/src/router_process.rs:114-142 | One attempt: started with an endpoint that within it was healthy, vetted and adopted, to be retried with its child gone, or failed because something was refused |
| `RouterProcess.RouterProcess.ClearTheGround` | crates/gateway/src/router_process.rs:115-117 | Before a spawn the last child is gone or could not be killed, the process the lock file names was signalled unless it names none but the gateway, and removing the address file was tried last |
| `RouterProcess.RouterProcess.GiveUpOnChild` | crates/gateway/src/router_process.rs:128-142 | Retry only when the child is gone and the last answer is that no other owner is reported; otherwise the error is remembered and returned, an owner having been reported, the kill having failed, or the child having been lost before; the address is dropped and removal of its file tried either way |
| `RouterProcess.RouterProcess.Restart` | crates/gateway/src/router_process.rs:156-161 | Whatever happens, a router of ours was first asked to stop, or none was reachable, or its file was unusable; ends with an address healthy, vetted and adopted in this call, or with none |
| `RouterProcess.RouterProcess.Status` | crates/gateway/src/router_process.rs:163-218 | Reports running only for the endpoint, with its pid and start time, that in this call was positively answered, vetted and adopted; stopped only when a start failed or an adopted router was gone at the second look; unhealthy only when the file could not be read or parsed; spawns and signals only after a look found no router |
| `RouterProcess.RouterProcess.Shutdown` | crates/gateway/src/router_process.rs:220-302 | Spawns nothing; ends Ok with no address, either with nothing reachable and no child held, or after a request to stop whose answer decides whether it was graceful, a refused connection and an attempt to remove the address file; force only after the deadline |
| `RouterProcess.RouterProcess.Call` | crates/gateway/src/router_process.rs:304-334 | What it returns is what the last answer says, the payload exactly when that answer is positive, and otherwise the error it states; an error without an answer only when something was refused or two children were given up |
| `RouterProcess.RouterProcess.CallExisting` | crates/gateway/src/router_process.rs:336-365 | Never spawns or signals; returns what the answer says, or an error because the file was unusable, there was no endpoint, it refused a connection, or it failed the lock-identity test |
| `RouterProcess.RouterProcess.CallOnce` | crates/gateway/src/router_process.rs:367-399 | One request to the address in use under the next request number, and the answer to it |
| `RouterProcess.RouterProcess.OwnsRouterEndpoint` | crates/gateway/src/router_process.rs:461-479 | For the endpoint of the latest look: true with an event that vets it, on the current state, as the process the lock file names or as the child just seen running; false only when the lock file does not name it and the child is another or lost; a child is dropped only when seen to be lost |
| `RouterProcess.RouterProcess.FingerprintMatches` | crates/gateway/src/router_process.rs:871-879 | For an endpoint that just answered its health check: true with an event that vets it on the current process table, because its claimed pid is alive with the claimed start time and is not the gateway itself outside tests, false with one that says otherwise |
| `RouterProcess.RouterProcess.HealthyOwnedRouterEndpoint` | crates/gateway/src/router_process.rs:436-445 | Gives an endpoint only when it answered its health check positively in this call and, last of all, this same endpoint was vetted, with nothing signalled; gives none only when the look found no healthy router of ours, and then signals at most a process whose address gave no answer |
| `RouterProcess.RouterProcess.ReachableOwnedRouterEndpoint` | crates/gateway/src/router_process.rs:426-434 | Gives an endpoint only when the file just named it, it accepted a connection, and it was vetted last of all or is at the address in use; gives none only when there is none, it refused the connection, or it failed the lock-identity test |
| `RouterProcess.RouterProcess.TerminateRouterFromLock` | crates/gateway/src/router_process.rs:796-834 | Signals one process, or records that the lock file names no live process but the gateway |
| `RouterProcess.RouterProcess.TerminateEndpointProcess` | crates/gateway/src/router_process.rs:774-794 | Signals one process, or none when the endpoint has no pid, is the gateway, or is not the one the lock file names |
| `RouterProcess.RouterProcess.IdentityMatches` | crates/gateway/src/router_process.rs:861-869 | Decides exactly whether the endpoint is live and is what the lock file names |
| `RouterProcess.RouterProcess.KillManagedRouterChild` | crates/gateway/src/router_process.rs:499-505 | The child is no longer held; true only when it was killed or had exited, false only with no child or when it could not be killed |
| `RouterProcess.RouterProcess.WaitForHealthyOwnedRouter` | crates/gateway/src/router_process.rs:447-459 | Gives an endpoint that since the wait began answered its health check positively and was vetted last of all, or none because the child was seen to be lost or the deadline passed |
| `RouterProcess.RouterProcess.ReadEndpointRecord` | crates/gateway/src/router_process.rs:666-687 | Reads the file once and gives exactly what it holds: the endpoint it names, which EndpointIsTheNamedOne says field by field, none when it is missing or of no use, or its error |
| `RouterWorld.EndpointIsTheNamedOne` | crates/gateway/src/router_process.rs:729-758 | An address file gives an endpoint exactly when its version is the gateway's own, empty or not a text, and its address is a text that is not blank; the endpoint has that address and the pid and start time the file holds, where they are numbers that fit |
| `RouterWorld.LookGivesTheNamedOne` | crates/gateway/src/router_process.rs:666-687 | A look at the file gives an endpoint exactly when it is decoded and names it, an error exactly when it cannot be read or decoded, and none when it is missing |
| `RouterWorld.EndpointRoundTrip` | crates/router/src/daemon.rs:64-69 | The record a router publishes reads back as its address, pid and start time in a gateway of the same version, or for a router without one, and as none in any other |
| `RouterWorld.HealthIdentityIsTheAnswers` | crates/gateway/src/router_process.rs:713-725 | A healthy answer's own pid and start time replace those of the file, each exactly when its payload holds such a number that fits |
| `RouterWorld.PositiveSaysOk` | crates/gateway/src/router_process.rs:709-712 | An answer counts as healthy exactly when its field ok is true |
| `RouterLockRecord.ReadLockRecord` | crates/gateway/src/router_process.rs:906-929 | The loop over the lines of a lock file computes the record its text stands for |
| `RouterLockRecord.RecordRoundTrip` | crates/router/src/daemon.rs:262-274 | The gateway reads back exactly the identity the router wrote if and only if the home directory is one line without surrounding blanks |
| `ProcessLock.InvRun` | crates/gateway/src/process_lock.rs:15-69 | Every schedule of open, try-lock, truncate, write, return, abandon, unlock and unlink steps by any number of processes keeps: a file's holder is the one call that owns it, and an owner's file holds what it has written so far |
| `ProcessLock.OneOwnerPerFile` | crates/gateway/src/process_lock.rs:15-35 | Two calls that own the lock at the same time own different files |
| `ProcessLock.OwnerFindsItsRecord` | crates/gateway/src/process_lock.rs:36-57 | A call that returned Ok finds its own complete record in its file until it drops the lock |
| `ProcessLock.TwoOwnersNeedRace` | crates/gateway/src/process_lock.rs:64-69 | Two live owners of one path imply that some drop removed the entry of a file another call had open |
| `ProcessLock.OrphanStep` | crates/gateway/src/process_lock.rs:64-69 | A handle to a file the path no longer names arises exactly by such a removal |
| `ProcessLock.OrphanIsExactlyTheDanger` | crates/gateway/src/process_lock.rs:15-69 | From a reachable state two processes can come to own the path without further removal, with newcomers that write any given record, if and only if some live handle is already such an orphan |
| `ProcessLock.LockDirectory.Acquire` | crates/gateway/src/process_lock.rs:15-57 | The code of one call, with any steps of other processes between its system calls: it ends as the owner of its file, which holds its record, if the system refused nothing it asked, and with no handle open if the lock, the truncation or a write was refused |
| `ProcessLock.LockDirectory.Drop` | crates/gateway/src/process_lock.rs:64-69 | Unlocking and removing are both tried, in this order; whether or not the system refuses them, the call ends with the handle closed and no file kept locked by it |
| `ProcessLock.LockDirectory.RemovePath` | crates/gateway/src/process_lock.rs:64-69 | Takes away whatever the path names by then, or nothing when the system refuses |
| `ProcessLock.MutualExclusionCanFail` | crates/gateway/src/process_lock.rs:64-69 | For any records, a run of calls that write them after which two processes own one path |
| `Tray.TrayState.Refresh` | crates/gateway/src/tray.rs:194-207 | Afterwards the screen is that of a rebuild from the latest snapshot if and only if it was right before or the shape changed; on a refused row the books keep the old snapshot |
| `Tray.RefreshAll` | crates/gateway/src/tray.rs:194-284 | After any sequence of snapshots, none refused, the menu shows exactly the rows of the last one and the click table answers for exactly its sessions |
| `Tray.TrayState.UpdateMenuItems` | crates/gateway/src/tray.rs:316-331 | In-place changes turn a menu that shows the old model into one that shows the new model in full |
| `Tray.TrayState.ReplaceMenu` | crates/gateway/src/tray.rs:286-307 | However often the desktop refuses a removal before it gives in, builds one row per entry in order, with handles aligned, or stops at the first refused row |
| `Tray.TrayState.RefreshInPlace` | crates/gateway/src/tray.rs:272-284 | Keeps rows and handles and moves the screen to the latest snapshot |
| `Tray.TrayState.RefreshByRebuild` | crates/gateway/src/tray.rs:272-307 | Shows the latest snapshot exactly when every row was accepted |
| `Tray.RefusedThenBack` | crates/gateway/src/tray.rs:194-207 | A refused rebuild is not repaired by going back to the old snapshot: the early return leaves the screen cut off |
| `Tray.CutOffIsNoMenu` | crates/gateway/src/tray.rs:341-388 | The first rows of one snapshot's menu are never the whole menu of another |
| `Tray.MenuModelWellFormed` | crates/gateway/src/tray.rs:341-396 | Every row is an item with id and label or a separator with neither |
| `Tray.MenuRows` | crates/gateway/src/tray.rs:341-395 | Which rows there are, in order: one per session with its key, its label and enabled, or the one that says there are none; then the fixed rows with their ids, labels in both languages and enabled flags |
| `Tray.ActionsAreLastSessions` | crates/gateway/src/tray.rs:333-339 | The click table holds, for each session key, the last session with it |
| `Tray.SnapshotsEqual` | crates/gateway/src/tray.rs:595-610 | The field-by-field comparison is equality |
| `ContactSheets.CompactionKeepsImages` | commands/read_media/src/previews.rs:9-65 | When compaction succeeds the previews still stand for exactly the original images, which PreviewUrl reads as UrlIsTheText says, once each and in order: in the results when there is at most one, with the top-level fields as they were, otherwise in sheets at the top while no result keeps any; matching count fields, the top-level one included, still match |
| `ContactSheets.MediaOutput.CompactVisualPreviews` | commands/read_media/src/previews.rs:9-65 | The in-place rewriting in two levels gives the specified output, for which EveryImageIsOnASheet says where every image goes, and fails exactly when a needed sheet cannot be drawn |
| `ContactSheets.CompactResultKeeps` | commands/read_media/src/previews.rs:67-110 | First level: one result's sheets stand for exactly its images, and its count still matches |
| `ContactSheets.SheetsKeepImages` | commands/read_media/src/previews.rs:118-136 | The sheets made of some items stand for exactly their images, in order |
| `ContactSheets.SheetsAreFull` | commands/read_media/src/previews.rs:118-136 | Every sheet holds twelve items but possibly the last, and none is empty |
| `ContactSheets.SheetRecordReads` | commands/read_media/src/previews.rs:123-133 | A sheet's URL and item count are those of its items |
| `ContactSheets.AllItemsKeepImages` | commands/read_media/src/previews.rs:19-44 | Gathering keeps every URL-bearing preview of every result, once and in order |
| `ContactSheets.AllItemsNumbered` | commands/read_media/src/previews.rs:37-38 | Gathered items are numbered from one without gaps across all results |
| `ContactSheets.ItemsKeepImages` | commands/read_media/src/previews.rs:82-98 | Items of one result are its URL-bearing previews, in order |
| `ContactSheets.CompactEach` | commands/read_media/src/previews.rs:16-18 | The loop over results, stopping at the first that fails |
| `ContactSheets.Aggregate` | commands/read_media/src/previews.rs:19-44 | The nested loops gather the specified items |
| `ContactSheetImages.EveryImageIsOnASheet` | commands/read_media/src/previews.rs:9-65 | Two or more URLs shown by the fields of the previews, over all results, end up on sheets that hold what they stand for once and in order: when one sheet is enough for the one result that has them all it stays there and its item count is their number; otherwise the item counts at the top add up to one for each result's only image and each of its sheets, so to the number of images when no result has two |
| `ContactSheetImages.UrlIsTheText` | commands/read_media/src/previews.rs:174-179 | A preview carries an image exactly when it has a value under image_url with a text under url, and it is that text, plain or not |
| `ContactSheetImages.CountsAddUp` | commands/read_media/src/previews.rs:118-136 | The item counts of the sheets made of some items add up to their number |
| `ContactSheetImages.CompactResultCounts` | commands/read_media/src/previews.rs:67-109 | One result with two or more images is left with a sheet for every twelve, whose counts add up to their number; any other is left with what it shows |
| `ContactSheetImages.FailsByDrawing` | commands/read_media/src/previews.rs:9-65 | Where every sheet can be drawn compaction succeeds |
| `ContactSheetImages.FailsWithoutDrawing` | commands/read_media/src/previews.rs:9-65 | Where none can and there are two images it fails |
| `ContactSheetImages.CaptionSays` | commands/read_media/src/previews.rs:24-41 | An item's caption is its number and the preview's label, or its position in its result when the label is no text; its detail is the result's path |
| `ContactSheetImages.SheetLists` | commands/read_media/src/previews.rs:123-133 | A sheet says it is one and lists the caption and path of every item it holds |
| `ContactSheetLayout.RenderContactSheet` | commands/read_media/src/previews.rs:138-168 | Every pixel of the sheet is the pixel its own tile specifies, and the sheet has the size of the grid; fails exactly when an image cannot be decoded |
| `ContactSheetLayout.ScaledSizes` | commands/read_media/src/previews.rs:138-168 | The sizes of tile, thumbnail, margin and label are the code's, scaled by three halves and rounded up |
| `ContactSheetLayout.LabelIsCutAt18` | commands/read_media/src/previews.rs:203-209 | A label inks exactly what the glyphs of its first eighteen characters ink, seven pixels apart |
| `ContactSheetLayout.OthersAreBlank` | commands/read_media/src/previews.rs:230-258 | A character outside the digits, ten letters and three signs the font knows leaves a gap |
| `ContactSheetLayout.DigitsShow` | commands/read_media/src/previews.rs:232-241 | Every digit is seen |
| `ContactSheetLayout.SomeLettersShow` | commands/read_media/src/previews.rs:242-251 | So are ten letters |
| `ContactSheetLayout.SignsShow` | commands/read_media/src/previews.rs:252-254 | And three signs |
| `ContactSheetLayout.ColumnsByCount` | commands/read_media/src/previews.rs:139-139 | Up to four items stand in two columns, more in four |
| `ContactSheetLayout.Colours` | commands/read_media/src/previews.rs:142-164 | Labels are black on light grey |
| `ContactSheetLayout.UpperIsNotLower` | commands/read_media/src/previews.rs:163-163 | Labels are drawn in upper case, and nothing but the case of letters changes |
| `ContactSheetLayout.TileFitsItsContents` | commands/read_media/src/previews.rs:138-168 | Thumbnail and label lie wholly inside their tile and apart from each other, and the centring subtraction never goes below zero |
| `ContactSheetLayout.TilesAreIndependent` | commands/read_media/src/previews.rs:138-168 | A point of a sheet depends on the item of its own tile only |
| `ContactSheetLayout.OneMoreTile` | commands/read_media/src/previews.rs:150-166 | Drawing the next item fills its own blank place and touches no pixel of another tile |
| `ContactSheetLayout.TileOfIndex` | commands/read_media/src/previews.rs:150-154 | A point lies in tile number k exactly when its column and row give k |
| `ContactSheetLayout.EveryTileIsOnTheSheet` | commands/read_media/src/previews.rs:138-150 | Every item's tile is on the sheet, so none is clipped or dropped |
| `ContactSheetLayout.PasteRgb` | commands/read_media/src/previews.rs:191-201 | Pasting changes exactly the covered pixels that are on the canvas |
| `ContactSheetLayout.DrawText` | commands/read_media/src/previews.rs:203-209 | Inks exactly the points of the label's glyphs, clipped to the canvas |
| `ContactSheetLayout.DrawChar` | commands/read_media/src/previews.rs:211-228 | Inks exactly the two-by-two squares of the set bits of one glyph |
| `ContactSheetLayout.LabelColumn` | commands/read_media/src/previews.rs:203-209 | Glyphs do not overlap: the column of a point tells which glyph can ink it |
| `Downloads.EverySchedule` | commands/web_discover/src/files.rs:84-141 | Under every interleaving and every pattern of faults an earlier file is kept or is replaced by one worker's own bytes; each saved file has its worker's bytes under the first name that was free before the batch, or over such a file; and no two workers share a name |
| `Downloads.EarlierFilesStay` | commands/web_discover/src/files.rs:116-141 | Whatever else fails, no earlier file changes unless the existence probe of a moving worker errs on a taken name |
| `Downloads.OverwritingNeedsBadProbe` | commands/web_discover/src/files.rs:127-133 | A worker comes to overwrite a file by such a probe and by nothing else |
| `Downloads.HasBadProbeMeans` | commands/web_discover/src/files.rs:127-133 | A schedule has such a probe exactly when one of its turns is one in the state that turn finds |
| `Downloads.BadProbeReplaces` | commands/web_discover/src/files.rs:127-133 | After such a probe the rename replaces the file; when it is refused because the file is there the worker goes on to the next name, and when it fails the file stays |
| `Downloads.SchedulesAgree` | commands/web_discover/src/download.rs:94-195 | Two fault-free schedules that let everyone finish end in the same names and files |
| `Downloads.EveryoneFinishes` | commands/web_discover/src/files.rs:84-141 | A worker with two thousand and one turns has finished under any schedule and any faults; without faults it has saved its file under the first name that was free, unless all thousand were taken |
| `Downloads.EveryTurnIsProgress` | commands/web_discover/src/files.rs:84-141 | Every turn of an unfinished worker, whatever fails, brings it further |
| `Downloads.RoomForAName` | commands/web_discover/src/files.rs:90-111 | Only a directory with a thousand files can leave a worker without a name |
| `Downloads.InvTurn` | commands/web_discover/src/files.rs:84-141 | One turn of one worker keeps that every new file belongs to the worker its name says |
| `Downloads.CandidatesDiffer` | commands/web_discover/src/download.rs:155-156 | Names tried by different workers never meet, because the index ends at the first dash |
| `Downloads.CopiesDiffer` | commands/web_discover/src/files.rs:90-96 | Names tried by one worker for different copy numbers differ |
| `Downloads.PartsAreWords` | commands/web_discover/src/util.rs:108-118 | A title's parts are its words of letters and digits, whatever stands between them |
| `Downloads.AlnumIsLetterOrDigit` | commands/web_discover/src/util.rs:111-111 | A word's characters are letters of either case and digits |
| `Downloads.SafeFilenameHasTheWords` | commands/web_discover/src/util.rs:108-123 | The name is the title's first eight words joined by dashes, cut at 80 characters, and its words can be told apart again when it is not cut; a title without words gives result |
| `Downloads.SafeFilenameIsSafe` | commands/web_discover/src/util.rs:108-123 | Whatever the title, the name has 1 to 80 characters, starts with a letter or digit, and consists of letters and digits with single dashes between, or one at the end of a name cut at 80 |
| `Downloads.SaveUniqueDownload` | commands/web_discover/src/files.rs:84-141 | The loop takes the first free name, or fails when all thousand are taken |
| `Downloads.JoinWorkers` | commands/web_discover/src/download.rs:179-194 | Fails exactly when some worker failed, otherwise lists exactly the workers that saved a file, by index |
| `AgentStore.RunOperations` | agents/src/store.rs:122-188 | Any run of saves of names without surrounding blanks and deletes, with faults of reading, writing and removing anywhere, on any aligned store keeps it aligned, and a default agent that is there at any moment, from the start or saved on the way, stays unchanged up to any later moment unless an operation in between endangers it: a save under its own name, or a delete that a blank-framed name or a look-up that cannot read it turns against it |
| `AgentStore.AgentStore.DeleteDynamicAgent` | agents/src/store.rs:164-188 | Whatever the look-up cannot read, in an aligned store removes the directory that the directory name of the agent it resolves to says without its surrounding blanks, which is its own if and only if it has none, refuses a default agent it sees, and touches no other directory; for every agent with the id as its name or as an alias at any place, what is removed is that of it or of an earlier one that has it too; a default agent is touched only when another shadows it or the look-up overlooks it |
| `AgentStore.AgentStore.ChooseTarget` | agents/src/store.rs:164-181 | In an aligned store decides the target from what the look-up can read: for a resolved agent the trimmed name of its directory, its own exactly when that name has no surrounding blanks; a default agent exactly when one is shadowed or overlooked |
| `AgentStore.AgentStore.SaveDynamicAgent` | agents/src/store.rs:122-162 | Writes exactly one directory; an aligned store stays aligned if and only if the name has no surrounding blanks |
| `AgentStore.AgentStore.LoadAgent` | agents/src/store.rs:94-104 | In an aligned store finds the first agent by name, among those whose configuration can be read, whose name or alias at any place is the id, blanks around it and case aside, or proves that no agent it can read has such a name or alias |
| `AgentStore.AgentStore.DiscoverAgents` | agents/src/store.rs:75-92 | Every directory that can be read has its lower-cased name as a key, and every value is some such directory's configuration |
| `AgentStore.SaveAlignsExactlyTrimmedNames` | agents/src/store.rs:106-120 | The saved directory is the lower-cased name if and only if the name has no surrounding blanks |
| `AgentStore.DeletesOwnDirectory` | agents/src/store.rs:164-181 | In an aligned store an agent's name says the same as its directory name: that very directory if and only if it has no surrounding blanks |
| `AgentStore.HitsDefaultExactly` | agents/src/store.rs:164-188 | In an aligned store a delete aims at a default agent if and only if the look-up resolves the id to another agent whose directory name is that agent's with blanks around it, or the id is its own, the look-up cannot read it, and no other agent answers |
| `AgentStore.DeleteHits` | agents/src/store.rs:164-188 | Such a delete, without a fault, removes the default agent |
| `AgentStore.DefaultsStay` | agents/src/store.rs:122-188 | A default agent there at any moment of a run stays up to any later moment unless some operation in between endangers it |
| `AgentStore.CleanDefaultsStay` | agents/src/store.rs:122-188 | When no directory name has surrounding blanks at first, only a save under its own name changes a default agent that every delete can read |
| `AgentStore.RunStaysAligned` | agents/src/store.rs:122-188 | Every tree of a run that saves trimmed names is aligned, and free of blank-framed names if it was so at first |
| `AgentStore.ResolvesOne` | agents/src/store.rs:94-104 | An id resolves to at most one agent |
| `AgentStore.AnswersByAnyName` | agents/src/store.rs:94-104 | An agent answers to an id if and only if its name, or its alias at some place, is the id without surrounding blanks and case |
| `AgentStore.AnyNameResolves` | agents/src/store.rs:94-104 | An id that is a name or an alias at any place of a readable agent resolves to that agent or to an earlier one that has it too |
| `AgentStore.PathIsOneName` | agents/src/store.rs:106-119 | A save or delete has a path exactly when the id, blanks around it aside, is not empty and has only letters, digits, underscores and dashes; it is that text in lower case, without dots and separators |
| `AgentStore.BlankNameLosesDefaultAgent` | agents/src/store.rs:164-188 | A name saved with blanks answers to no id, so that its directory, even a default agent's, can be removed |
| `AgentStore.BlankDirectoryHitsDefaultAgent` | agents/src/store.rs:164-188 | In an aligned store with one blank-framed directory an alias makes a delete hit another, default agent |
| `AgentStore.UnreadDefaultIsHit` | agents/src/store.rs:75-104 | In an aligned store with clean names, a look-up that cannot read a default agent lets a delete by its own id aim at it |
| `AgentStore.AliasShadowsName` | agents/src/store.rs:94-104 | An alias of an earlier agent takes precedence over another agent's own name |
| `CliWords.SplitCliWords` | commands/read_media/src/args.rs:244-264 | The loop over characters computes the specified words (web_discover uses the same splitter) |
| `CliWords.ReadLine` | commands/read_media/src/args.rs:244-264 | However each word is quoted, splitting a line gives back the words meant |
| `CliWords.QuoteMeansText` | commands/read_media/src/args.rs:244-264 | Any text can be written as one word |
| `ReadMediaArgs.RoundTrip` | commands/read_media/src/args.rs:103-197 | A line that means the printed flags of in-range arguments, however each word is quoted, parses to the same arguments, for arbitrary path text and under any policy |
| `ReadMediaArgs.QuotedRoundTrip` | commands/read_media/src/args.rs:103-197 | Such a line exists for every in-range argument value |
| `ReadMediaArgs.TextRoundTrip` | commands/read_media/src/args.rs:5-13 | It also survives the outer entry point: it is not taken for JSON and trimming leaves it alone |
| `ReadMediaArgs.LineInRange` | commands/read_media/src/args.rs:103-226 | Every accepted command line, under any policy text, has a path and limits inside the clamp ranges |
| `ReadMediaArgs.ValueInRange` | commands/read_media/src/args.rs:15-101 | So has every accepted JSON value |
| `ReadMediaArgs.TextInRange` | commands/read_media/src/args.rs:5-13 | So has every accepted text, whatever the JSON library does |
| `ReadMediaArgs.JsonRoundTrip` | commands/read_media/src/args.rs:46-100 | Arguments spelled out as a JSON object read back as they are if and only if no path is empty or has surrounding blanks |
| `ReadMediaArgs.PolicyInRange` | commands/read_media/src/config.rs:15-63 | Whatever the policy file says, the defaults are inside the ranges |
| `ReadMediaArgs.ConfigurableDefault` | commands/read_media/src/config.rs:69-92 | The scan over lines gives the quoted default on the first line that sets the key with [configurable] as the last header before it, and none when no line does |
| `ReadMediaArgs.ParseCliArgs` | commands/read_media/src/args.rs:103-197 | The index loop computes the fold of the words' effects, with its three errors; LineIsRead and UnknownIsRefused say what these effects are |
| `ReadMediaArgs.ParseWord` | commands/read_media/src/args.rs:118-184 | One turn of the loop: the word, its value inline or next, and where to go on; PieceIsRead says what each kind of word does |
| `ReadMediaArgs.FlagNamesItsLimit` | commands/read_media/src/args.rs:134-180 | Every printed flag is read as the limit it names |
| `ReadMediaLines.LineIsRead` | commands/read_media/src/args.rs:103-226 | A line of plain words and options, in any order and any of their spellings, quoted in any way, with the command's name before them or not, gives the plain words and path options as paths in order, the last switch, and for each limit the last value given, moved into its range, or the policy's default; without a path it is refused |
| `ReadMediaLines.WordsAreRead` | commands/read_media/src/args.rs:118-197 | The same for words already split: so a value after an equals sign does what it does as the next word, and every spelling what every other does |
| `ReadMediaLines.PieceIsRead` | commands/read_media/src/args.rs:118-184 | One plain word, switch or option does exactly one thing and takes one word, or two when its value is the next |
| `ReadMediaLines.PlainWord` | commands/read_media/src/args.rs:180-180 | A word that does not begin with a dash is a path as it stands, equals sign or not |
| `ReadMediaLines.SpellingIsRead` | commands/read_media/src/args.rs:135-171 | Each of the listed spellings names its option |
| `ReadMediaLines.UnknownIsRefused` | commands/read_media/src/args.rs:180-181 | A word that begins with a dash and whose part before any equals sign is none of these is refused, whatever stands before and after it |
| `ReadMediaLines.MissingValueIsRefused` | commands/read_media/src/args.rs:126-134 | An option that takes a value is refused when nothing follows it |
| `ReadMediaLines.AcceptedExactly` | commands/read_media/src/args.rs:103-197 | The words accepted are exactly those made of such pieces |
| `ReadMediaLines.EveryLine` | commands/read_media/src/args.rs:103-197 | Any words are pieces up to the end, up to an unknown option, or up to an option at the end without its value |
| `ReadMediaLines.RangesSay` | commands/read_media/src/args.rs:138-178 | The ends of the range each limit is moved into |
| `ReadMediaValues.ValueIsRead` | commands/read_media/src/args.rs:15-101 | A JSON text is a command line, an array a list of paths; an object is a command line when the first of six fields that is a text is not blank, and otherwise states paths, switch and limits by the first field, of any of their names, that can be read |
| `ReadMediaValues.TextIsRead` | commands/read_media/src/args.rs:5-13 | A text whose first visible character is a brace or a bracket must be JSON, and any other is a command line |
| `ReadMediaValues.FirstOfIsFirst` | commands/read_media/src/args.rs:266-322 | A reading over several names gives what the first of them gives that gives anything, and nothing exactly when none does |
| `ReadMediaValues.TruthSays` | commands/read_media/src/args.rs:297-310 | A switch is a truth value or one of ten words, case and surrounding blanks aside |
| `ReadMediaValues.NumberSays` | commands/read_media/src/args.rs:312-318 | A limit is a number that fits, or a text that is one |
| `ReadMediaValues.PathSays` | commands/read_media/src/args.rs:281-288 | A text in an array adds itself, without surrounding blanks, exactly when it is not blank |
| `ReadMediaValues.PathsSay` | commands/read_media/src/args.rs:274-295 | The paths of an array are its texts, of a text itself unless it is blank, and of anything else none |
| `ReadMediaValues.DefaultReads` | commands/read_media/src/config.rs:86-88 | The default of a setting is the text in quotes after the first word default on its line |
| `ReadMediaValues.SettingReads` | commands/read_media/src/config.rs:77-85 | A line sets a key exactly when the part before its first equals sign is the key, blanks aside, and the line is no comment |
| `ReadMediaValues.HeaderSays` | commands/read_media/src/config.rs:73-75 | A header is anything in square brackets |
| `ReadMediaValues.CommentsSetNothing` | commands/read_media/src/config.rs:77-82 | A comment or a line without an equals sign sets nothing |
| `ReadMediaValues.SettingIsTheDefault` | commands/read_media/src/config.rs:16-25 | A setting is the quoted default on its first line under the configurable header, and counts as unknown without one |
| `ReadMediaValues.PolicySays` | commands/read_media/src/config.rs:15-63 | Each setting has two named choices, and anything else or no setting means the third |
| `ReadMediaRunner.EverySchedule` | commands/read_media/src/runner.rs:22-53 | Every schedule of threads, with any set of them dying before they send, is finite; one that cannot go on has finished; the sorted list is exactly the survivors' results in input order, and all of them when none died |
| `ReadMediaRunner.NeverStuck` | commands/read_media/src/runner.rs:41-48 | The collector is blocked only while some worker can still move |
| `ReadMediaRunner.EveryStepIsProgress` | commands/read_media/src/runner.rs:22-48 | Every step lowers a measure, so every run ends |
| `ReadMediaRunner.FinishingSchedule` | commands/read_media/src/runner.rs:22-48 | From every state of a run the program can run to its end |
| `ReadMediaRunner.RunsAreShort` | commands/read_media/src/runner.rs:22-48 | No run takes more steps than the measure says |
| `ReadMediaRunner.InvRun` | commands/read_media/src/runner.rs:22-48 | Received and queued items together are those of the workers that sent |
| `ReadMediaRunner.SortingIsUnique` | commands/read_media/src/runner.rs:49-53 | A list without repeated keys has only one sorted order, so arrival order does not matter |
| `ReadMediaRunner.SortedIsSurvivors` | commands/read_media/src/runner.rs:49-53 | Sorting what was received gives the survivors in input order |
| `ReadMediaRunner.NothingLeft` | commands/read_media/src/runner.rs:42-47 | A full count, or an empty channel without senders, leaves nothing behind |
| `ReadMediaRunner.RunReadMedia` | commands/read_media/src/runner.rs:22-53 | The spawn loop, receive loop and sort give the survivors' results for every choice of interleaving |
| `ReadMediaRunner.Recv` | commands/read_media/src/runner.rs:43-46 | Receives an item, or reports that nothing is queued and no sender is left |
| `ContentTypeFallback.NothingLeft` | crates/provider/src/content_type_fallback.rs:84-107 | No block of the rejected type is left at any place of the tree |
| `ContentTypeFallback.ReplaceUnsupported` | crates/provider/src/content_type_fallback.rs:84-107 | The recursion returns the replaced value and the number of matching blocks with no matching ancestor |
| `ContentTypeFallback.OutermostIsExact` | crates/provider/src/content_type_fallback.rs:84-107 | The counted places are exactly those of the matching blocks with no matching ancestor |
| `ContentTypeFallback.OutermostIsDistinct` | crates/provider/src/content_type_fallback.rs:84-107 | Each is counted once |
| `ContentTypeFallback.ZeroMeansUnchanged` | crates/provider/src/content_type_fallback.rs:84-107 | The count is zero exactly when nothing changed |
| `ContentTypeFallback.ReplacingTwice` | crates/provider/src/content_type_fallback.rs:84-107 | Replacing again changes and counts nothing |
| `ContentTypeFallback.OrderDoesNotMatter` | crates/provider/src/content_type_fallback.rs:84-107 | Replacing two types gives the same tree in either order |
| `ContentTypeFallback.ReplacedAt` | crates/provider/src/content_type_fallback.rs:84-107 | Up to the first block on the way the tree is as before, and a block becomes the placeholder |
| `ContentTypeFallback.TypeStays` | crates/provider/src/content_type_fallback.rs:84-107 | Replacing inside a node does not change the type it states |
| `ContentTypeFallback.ReplaceInMessages` | crates/provider/src/content_type_fallback.rs:74-82 | Every message of the array is replaced in place, and the counts are added up |
| `ContentTypeFallback.FallbackIsMedia` | crates/provider/src/content_type_fallback.rs:36-63 | Whatever the provider says, the type to replace is one of three media types, never the placeholder's |
| `ContentTypeFallback.FallbackIsWhatItSays` | crates/provider/src/content_type_fallback.rs:36-63 | The fallback is decided by which phrases the error contains, in either case, an earlier one before a later one, and there is none without them |
| `ExaResults.CollectResults` | commands/web_discover/src/search.rs:168-220 | For a limit of at least one the line-by-line scan collects the same list as splitting into sections, reading each, keeping the first entry per URL across blocks and cutting at the limit; for zero it stops after the first result or block |
| `ExaResults.ReadBlock` | commands/web_discover/src/search.rs:170-219 | The scan of one block adds exactly the entries of its sections |
| `ExaResults.CloseSection` | commands/web_discover/src/search.rs:176-196 | A cut line adds the section's result exactly when its URL is new |
| `ExaResults.SectionsJoin` | commands/web_discover/src/search.rs:174-176 | Splitting at cut lines loses nothing |
| `ExaResults.SectionsHaveNoCut` | commands/web_discover/src/search.rs:174-176 | No section contains a cut line |
| `ExaResults.FirstPerUrlIsExact` | commands/web_discover/src/search.rs:178 | An entry survives exactly when no earlier entry has its URL |
| `ExaResults.FirstPerUrlDistinct` | commands/web_discover/src/search.rs:178 | No URL is kept twice |
| `ExaResults.FirstPerUrlGrows` | commands/web_discover/src/search.rs:189-191 | More entries only add results at the end, so that stopping early is safe |
| `ExaResults.CollectedIsSound` | commands/web_discover/src/search.rs:168-226 | At most limit results with different URLs, each the first entry of its URL, and no URL missed unless the list is full |
| `ExaResults.ParseExaWebResults` | commands/web_discover/src/search.rs:132-226 | The whole parser: texts from the event stream or the reply as one value, and the two errors |
| `ExaLines.EntrySays` | commands/web_discover/src/search.rs:168-219 | A section gives nothing without an address that begins with http; otherwise one result with the last such address, the last title unless it is empty when cleaned, and the first thousand characters of the snippet's lines joined by spaces and cleaned |
| `ExaLines.LineIsRead` | commands/web_discover/src/search.rs:199-218 | A line with one of the five names, an empty one and any other are told apart; only an address that begins with http counts |
| `ExaLines.EveryLineIsOne` | commands/web_discover/src/search.rs:199-218 | Every line but a cut is one of these |
| `ExaLines.SectionsOfJoined` | commands/web_discover/src/search.rs:173-198 | Sections put together with cut lines are told apart again |
| `ExaLines.BlockSays` | commands/web_discover/src/search.rs:170-219 | A block of such sections gives their entries in order |
| `ExaLines.ContentSays` | commands/web_discover/src/search.rs:141-145 | The content items are those listed under content in result, and none otherwise |
| `ExaLines.ItemSays` | commands/web_discover/src/search.rs:146-150 | An item adds the text under text, and nothing without one |
| `ExaLines.StreamLineSays` | commands/web_discover/src/search.rs:135-140 | A line of the stream counts exactly when it begins with its prefix and the rest is JSON |
| `ImageDimensions.RatioCanvasFits` | commands/generate_media/src/files.rs:153-162 | Every positive aspect ratio gives a canvas with long edge 1024 and both edges multiples of 16 from 64 to 1024 |
| `ImageDimensions.ShrunkFits` | commands/generate_media/src/files.rs:176-189 | Shrinking stays within the limit if and only if the limit is at least 64 and less than 8 above a multiple of 16 |
| `ImageDimensions.ShrunkEdges` | commands/generate_media/src/files.rs:184-188 | Shrinking keeps both edges multiples of 16 of at least 64 in the same order, the long one nearest to the limit |
| `ImageDimensions.ProviderDimensionsFit` | commands/generate_media/src/files.rs:176-189 | With a limit that is a multiple of 16 and at least 64 every accepted request is within it, and only invalid requests fail |
| `ImageDimensions.ProviderSays` | commands/generate_media/src/files.rs:176-189 | A canvas within the limit is left alone, and any other is shrunk |
| `ImageDimensions.DimensionsSay` | commands/generate_media/src/files.rs:145-165 | A request's canvas is its edges, else its size unless that is auto, else its ratio's canvas, and otherwise 1024 by 1024; an edge below 64 is refused |
| `ImageDimensions.OpenAiSays` | commands/generate_media/src/files.rs:216-233 | The service's canvas is accepted exactly when its edges are multiples of 16 up to 3840, at most three to one, with 655360 to 8294400 pixels |
| `ImageDimensions.OpenAiSizeSays` | commands/generate_media/src/files.rs:167-174 | Sent are auto where asked for, the canvas where it is accepted, and otherwise the error |
| `ImageDimensions.RatioOnlyAccepted` | commands/generate_media/src/files.rs:216-233 | A ratio canvas is accepted exactly when its short edge is at least 640, which is when the ratio is at most 2048 to 1263 |
| `ImageDimensions.RatioOnlyRequest` | commands/generate_media/src/files.rs:167-174 | The same for a whole request that only gives a ratio |
| `ImageDimensions.RoundTo16IsNearest` | commands/generate_media/src/files.rs:265-267 | Rounding gives the nearest multiple of 16, and at least 64 |
| `ImageDimensions.RoundedReaches` | commands/generate_media/src/files.rs:157 | Rounding half up reaches a whole number exactly from half below it |
| `ImageDimensions.LabelIsLowest` | commands/generate_media/src/files.rs:195-197 | The label is the canvas in lowest terms: the same proportion, no common divisor above one, and no part larger than its edge |
| `ImageDimensions.LowestIsUnique` | commands/generate_media/src/files.rs:191-198 | Two fractions of one proportion in lowest terms are the same, so that a canvas has only one label |
| `ImageDimensions.OneProportionText` | commands/generate_media/src/files.rs:191-198 | So two texts that state the proportion of one canvas are the same text |
| `ImageDimensions.LabelGivesCanvas` | commands/generate_media/src/files.rs:153-198 | A canvas made from an aspect ratio is made again by a request that gives its label |
| `ImageDimensions.LabelReadsBack` | commands/generate_media/src/files.rs:249-263 | The label parses back to its two numbers |
| `ImageDimensions.GcdIsGreatest` | commands/generate_media/src/files.rs:269-276 | A number divides the result exactly when it divides both inputs |
| `ImageDimensions.Gcd` | commands/generate_media/src/files.rs:269-276 | The loop computes the greatest common divisor |
| `ImageDimensions.AspectRatio` | commands/generate_media/src/files.rs:191-198 | Without a ratio of its own the request gets the one text of two numbers in lowest terms that have the proportion of its canvas; fails exactly when there is neither ratio nor canvas |
| `ImageDimensions.SizeReadsBack` | commands/generate_media/src/files.rs:235-247 | The size text sent to the provider parses back to the canvas |
| `PdfLiterals.LiteralReadsBack` | commands/read_media/src/pdf.rs:107-149 | For any spelling of a literal in plain characters and the escapes the decoder knows, and anything after its closing parenthesis, the finder stops at that parenthesis and the decoder gives what was meant; other escapes are left as they stand |
| `PdfLiterals.EscapedTextReadsBack` | commands/read_media/src/pdf.rs:107-149 | Escaping the parentheses and backslashes of any text, the finder returns exactly the escaped length and the decoder the text |
| `PdfLiterals.FindLiteralEnd` | commands/read_media/src/pdf.rs:107-121 | The found end is the first closing parenthesis after an even run of backslashes, and there is none exactly when nothing is found |
| `PdfLiterals.EndIsTheStandards` | commands/read_media/src/pdf.rs:107-121 | The found end is the one the format means, with balanced parentheses allowed inside, if and only if no unescaped parenthesis opens before it |
| `PdfLiterals.BalancedEndIsFirst` | commands/read_media/src/pdf.rs:107-121 | That end is the first unescaped closing parenthesis before which as many were closed as opened |
| `PdfLiterals.EscapesAreTheStandards` | commands/read_media/src/pdf.rs:136-146 | The decoder knows exactly the eight escapes of the format's table and leaves any other as it stands |
| `PdfLiterals.ContributionHasLetters` | commands/read_media/src/pdf.rs:91-95 | A literal adds what it decodes to and a line end exactly when that has a letter |
| `PdfLiterals.DecodeLiteral` | commands/read_media/src/pdf.rs:123-149 | The loop computes the specified decoding |
| `PdfLiterals.SpansInOrder` | commands/read_media/src/pdf.rs:85-96 | Each extracted literal starts at the first parenthesis after the one before it and ends where the finder says; these are the literals whose texts the loop gathers |
| `PdfLiterals.SpansAreDisjoint` | commands/read_media/src/pdf.rs:85-96 | Extracted literals are disjoint and in order |
| `PdfLiterals.GatherText` | commands/read_media/src/pdf.rs:83-100 | The extraction loop terminates with what the literals of the ordered, disjoint list contribute, one after the other, up to the length at which it stops |
| `PdfLiterals.GatheredIsPrefix` | commands/read_media/src/pdf.rs:83-100 | The gathered text is that of the first so many literals: the fewest, at least one, that are long enough together, or else all |
| `PdfLiterals.FallbackPdfText` | commands/read_media/src/pdf.rs:81-104 | The whole fallback: gathered text, or a notice, cut at the limit |
| `GlobalOptions.TakeAll` | apps/tui/src/cli.ts:153-206 | The splicing loop terminates, because the array length minus the index falls in every turn, and leaves exactly the arguments and settings of the one-pass specification, or its error |
| `GlobalOptions.ParseGlobal` | apps/tui/src/cli.ts:141-206 | The whole parser gives the leftover arguments, in order, and the settings of the one-pass specification, or its error, and does not change its input |
| `GlobalOptions.TakeOption` | apps/tui/src/cli.ts:154-205 | One option is taken out of the array with its value, or refused |
| `GlobalOptions.Arguments.TakeValue` | apps/tui/src/cli.ts:459-464 | Removes option and value, or throws on a missing or empty value without touching the array |
| `GlobalOptions.OptionsAreRead` | apps/tui/src/cli.ts:154-205 | Every global option is read as itself, with its value in the next word or after an equals sign |
| `GlobalOptions.SpellingsAgree` | apps/tui/src/cli.ts:154-205 | Both spellings of an option do the same wherever they stand, except that only the one with an equals sign may give an empty value |
| `GlobalOptions.ValuedOptionsSay` | apps/tui/src/cli.ts:154-205 | What each option that takes a value sets |
| `GlobalOptions.SwitchesSay` | apps/tui/src/cli.ts:168-189 | What each switch sets |
| `GlobalOptions.OtherIsNoOption` | apps/tui/src/cli.ts:154-206 | An argument is left alone exactly when it is no option's name and does not begin with the name of one that takes a value and an equals sign |
| `GlobalOptions.ValuesSay` | apps/tui/src/i18n.ts:19-25 | A value is taken as it is, except that a language is known by three names each, in any case, and no other is accepted |
| `GlobalOptions.LastWriteWins` | apps/tui/src/cli.ts:154-205 | A variable holds what the last option that sets it says |
| `GlobalOptions.UnwrittenStays` | apps/tui/src/cli.ts:143-152 | A variable that no option sets keeps its initial value |
| `GlobalOptions.LeftoversAreOther` | apps/tui/src/cli.ts:153-206 | Only arguments that are not global options are left |
| `GlobalOptions.LeftoversStay` | apps/tui/src/cli.ts:153-206 | Run on its own leftovers the parser removes and writes nothing |
| `XmlEscape.EscapeIsSubstitution` | commands/generate_media/src/speech.rs:699-706 | The five replacements in a row are one simultaneous substitution |
| `XmlEscape.EscapedIsClean` | commands/generate_media/src/speech.rs:699-706 | No raw angle bracket or quote is left |
| `XmlEscape.DecodeEscaped` | commands/generate_media/src/speech.rs:699-706 | A one-pass decoder of the predefined entities recovers every input |
| `XmlEscape.EscapeIsInjective` | commands/generate_media/src/speech.rs:699-706 | Different texts escape differently |
| `XmlEscape.EscapedExactly` | commands/generate_media/src/speech.rs:699-706 | The outputs are exactly the decodable texts without raw markup |

## Left out

- ContentTypeFallback.ReplaceUnsupported: computes the new value instead of overwriting nested values through mutable references; only the message array itself is rewritten in place, so aliasing between a block and its parent is not modelled.
- ContactSheets.MediaOutput.CompactVisualPreviews: the output is one field that is reassigned; nested results are rewritten as values. What is left in the output after a failed rendering, which the caller discards, is not specified.
- ContactSheetLayout.RenderContactSheet: pixel coordinates are unbounded numbers, so canvases wider than 32 bits are not modelled; decoding and resizing a preview is any function to an image that fits the bound.
- Downloads.SaveUniqueDownload: one worker alone takes its name in one step; the separate exists, create and rename steps and their interleavings are in the step machine.
- ReadMediaRunner.RunReadMedia: what a worker computes is a function of its input index; reading the files themselves is not modelled.
- ImageDimensions.RoundedReaches: rounding is exact on fractions; the error of floating-point division before rounding is not modelled, nor is 32-bit overflow, which no limit below 4294967280 reaches.
- RouterProcess.RouterProcess.EnsureStarted: time is a deadline that may pass at any poll, at most 100 polls; an address that cannot be parsed is one that refuses every connection; a health probe is not counted as a request of the run, and two calls into one supervisor at the same time are not modelled.
- RouterProcess.RouterProcess.Shutdown: the shutdown answer's payload is not part of the report.
- RouterWorld.World.KillPid: the look-up that justifies a kill and the kill itself are one step, as no operating system call separates checking a start time from signalling.
- ProcessLock.LockDirectory.Acquire: creating the lock directory and opening the path, when they fail, leave no handle and are no step of the model.
- Tray.TrayState.ReplaceMenu: a desktop that never gives in and keeps refusing to remove a row makes the code's loop run forever; only finitely many refusals are modelled.
- PdfLiterals.LiteralReadsBack: balanced unescaped parentheses, which section 7.3.4.2 of ISO 32000-1 allows, end the literal early, as EndIsTheStandards says; octal escapes and line continuations mean what the decoder leaves of them.
- Tray.TrayState.Refresh: finished clients, click handling and the reading of a snapshot are left out; a snapshot is any value.
- GlobalOptions.ParseGlobal: the option variables are one map from variable to setting, and the environment's initial values are its initial contents; resolving the URL and directory afterwards is left out.
- PdfLiterals.FallbackPdfText: the readers tried before the fallback are foreign code; which characters are alphabetic is a parameter, and positions count characters instead of bytes.
- ExaResults.ParseExaWebResults: JSON decoding and the clean-up of titles and snippets, which removes tags with a regular expression, are parameters.
- ReadMediaArgs.ArgsOfText: JSON decoding is a parameter, and lower-casing is that of ASCII.
- AgentStore.AgentStore.LoadAgent: a configuration that is read is read as it is on disk; paths are opaque names of sub-directories; prompt files, summaries and symbolic links are left out.
- RouterLockRecord.ReadLockRecord: home directories are compared as opaque text, without the path normalization, canonical paths and case folding of the code, which can still take a differently spelled home for the same one; a build kind on several lines is not considered.
- Callback notifications that the router sends inside an answer, and requests other than by method name, are not modelled.
- HTTP clients, providers, yt-dlp, ffmpeg, pdfium, image codecs, base64 and the HTML scraping of other search engines are foreign code.
- Lock file names, percent decoding, temporary directories, unique names of generated images and the remaining web_discover helpers are single string operations without state, and no property of this model depends on them.
- Provider, voice and MIME tables and the persona transition matrix are finite case checks.
