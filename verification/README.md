# BlackVue Sync: a verified model

BlackVue Sync downloads dashcam recordings, schedules the downloads and serves the results in a browser. This Dafny project models the parts of it that carry state, interleaving or a translation, and proves what they keep on every input and every run. `dafny verify dfyconfig.toml` checks all of it.

| part | modules |
|---|---|
| resumable download, whole sync run | `Download`, `Resumption`, `Truncation`, `Downloader`, `Recordings`, `SyncRun`, `Syncer`, `SyncedView` |
| publisher, sync runner, retention timer | `Progress`, `Runner`, `RunnerLimits` |
| cached recording index, journeys | `Entries`, `EntryContents`, `FileTree`, `RecordingIndex`, `IndexAnswer`, `ViewerIndex`, `Journey` |
| cron compilation | `CronText`, `CronStandard`, `Cron` |
| log ring, event stream, log page | `LogRing`, `LogsView`, `LogTelling`, `LogDelivery`, `LogContinuity`, `LogRestarts` |
| login rate limiter | `RateLimiter`, `LoginHistory` |
| disk-usage forecast | `Forecast` |
| settings: types, store, file, PATCH | `FieldTypes`, `Settings`, `SettingsSchema`, `SettingsStore`, `AtomicFile`, `PatchSettings` |

Each part has the same shape. A module defines the operations as functions of values. Where the source updates objects in place, a class (`Destination`, `ProgressPublisher`, `Syncer`, `Index`, `LogBuffer`, `LogsPage`, `RateLimiter`, `SettingsStore`) has the source's fields and loops, and its methods are proved equal to those functions. Lemmas about the functions then state what the source promises, over sequences of calls or interleavings of steps, in terms of the inputs: names of files, characters of a text, fields of a payload, not the functions again.

The dashcam, the file system, clocks and the network are parameters. The dashcam answers each request as it likes: any status, any headers, bodies cut anywhere, time-outs, stop requests in between. `Honest` says what a truthful dashcam may answer (a 200 states its length, a 206 with total `*` runs to the end of the file), in the terms of RFC 9110, sections 14.2, 14.4, 15.3.7 and 15.5.17. The reference side of the cron translation is the INPUT FILES section of the crontab utility in IEEE Std 1003.1 with the Vixie extensions.

## Where the code does not do what it or its documentation says

Each item is proved: by a concrete run, or with the exact condition under which the promise holds.

- A body that is cut short can get its final name (`blackvuesync/sync.py:567-579`, `852-862`). `NoCutFinalisedIff`: for a call with given headers no cut of a truthful body is ever finalised iff the stated size is the true one or out of reach. `UnstatedSizeIsNeverSafe`: a 200 without Content-Length, and a 206 with total `*` without one, never meet this while there is something to send; `StarWithoutLengthLosesTheTail` is such a call.
- `download_file` is said to restart once and not to loop (`blackvuesync/sync.py:762-766`). `AtMostTwoRequestsIff`: whatever the dashcam answers, it sends at most two requests iff there is no partial file at its start or partial files can be removed; otherwise answers of 416 keep it going for any number of requests, `RefusedRemovalNeverEnds`.
- Removing a group directory without a video also removes its failure markers, so the retry delay is lost (`blackvuesync/sync.py:1329-1346`): `RetryDelayHeldIff`.
- A sync that succeeded is published again as failed when its retention timer fires before the runner compares job ids (`blackvuesync/server/sync_runner.py:181`): `SuccessCanBeRepublishedAsFailure`; `EveryRunPublishesItsEnd` says that this is the only way.
- The stop handler calls its race benign, as the next trigger clears the flag (`blackvuesync/server/routes/api_sync.py:141-149`). `StopHitsAnotherIff`: a stop meant for one job can hit another iff, when the flag is set, the lock is held by a trigger that has already cleared it or by another job with its work still to do; `StopCanHitALaterJob` reaches both windows.
- `_current_job_id` is said to be the job that holds the lock (`blackvuesync/server/sync_runner.py:27-29`). `BusyAnswerIff`: a refused trigger is told that job iff the holder has named it; if not, it is told no job or one that has ended, as `BusyAnswerCanBeStale` shows.
- The index trusts a listing once its stamp is two seconds old (`blackvuesync/server/viewer_index.py:214`). `WindowMustCoverTheTick`: such a listing never misses a change iff the file system's stamps are no coarser than those two seconds.
- A log stream whose queue overflows early makes the page report a restart that did not happen and show lines again; dropping frames is documented as harmless (`blackvuesync/server/log_buffer.py:81-85`). `FalseRestartIff`: over every run, a frame brings a restart row iff its process is a later one than the page's, or it is the first batch of its stream and the queue had dropped every line from the snapshot's newest one on, and then the row is false; `FalseRestartHappens` is a run.
- The log page trims white-space nodes as if they were rows, so a page served full keeps rows beyond its capacity (`blackvuesync/server/static/js/logs.js:193-198`): `TrimReachesCapacityIff`, `FullPageOverflows`.
- The rate limiter forgets lockouts for want of room (`blackvuesync/server/auth.py:118-122`). `LockoutKeptIff`: in every reachable state an address that is locked out, and due to be, stays so at the failure of another one iff no room has to be made or an entry that locks it out is not among the oldest that go; `PushedOutIsLetIn` is a run that lets one in. The other way round no address is ever locked out without cause: `NeverLockedWithoutCause`.
- A list in a tuple field passes the type check but does not survive a reload: `ReloadsIffNoLists`. `update` checks only sections that compare unequal to the old ones. `AcceptedBreaksIff`: an accepted update makes a valid section invalid iff the section compares equal and some field lost its type to an equal value, which `RetypedIsANumber` shows to be an equal number of another type; `EqualNumberSlipsThrough` is such an update. No route sends one: PATCH checks types first, the schedule routes store `True` or `False` (`blackvuesync/server/routes/api_schedule.py:19-25`), the login routes strings (`blackvuesync/server/routes/api_auth.py:108`, `133`, `blackvuesync/server/routes/auth.py:209`); it takes another caller of `update`, which accepts any mutation.
- A save that fails after the rename is reported as failed but is found after a restart, unless it changed nothing: `FailedSaveCanStick`.
- A cron expression that is valid can be refused by the scheduler, which `_scheduler_error` reports (`blackvuesync/settings.py:188-203`). `CompiledFieldsAcceptedIff`: its triggers are taken iff every step in minute, hour, day and month is within its range.

## Model

| member | source | states |
|---|---|---|
| `Download.CallKeepsSafe` | blackvuesync/sync.py:781-876 | any call of `download_file` against an honest dashcam, however it ends, leaves each dot-file a prefix of its source and each finished file equal to it |
| `Download.AllRunsSafe` | blackvuesync/sync.py:696-876 | the same over any sequence of calls, of any files, with crashes in between |
| `Truncation.NoCutFinalisedIff` | blackvuesync/sync.py:852-862 | for any file, destination, options and reply headers: no truthful body with these headers, cut anywhere, makes the call leave a wrong finished file iff the size the headers state is the true one or out of reach |
| `Truncation.UnstatedSizeIsNeverSafe` | blackvuesync/sync.py:559-579 | a 200, or a 206 with total `*`, without Content-Length can always be cut so that a wrong file gets its final name |
| `Truncation.StarWithoutLengthLosesTheTail` | blackvuesync/sync.py:559-579 | a call with a 206 with total `*` and no length, cut before its first byte: half a file gets its final name |
| `Download.CallFrame` | blackvuesync/sync.py:781-876 | a call touches only the partial, the final file and the marker of its own name |
| `Download.AtMostTwoRequests` | blackvuesync/sync.py:748-850 | if the partial can be removed, whatever the dashcam answers: at most two requests, the second from byte 0 |
| `Download.AtMostTwoRequestsIff` | blackvuesync/sync.py:748-850 | for every destination, name and options of a call that starts a transfer: it sends at most two requests whatever it meets iff there is no partial at its start or partials can be removed |
| `Download.RefusedRemovalNeverEnds` | blackvuesync/sync.py:762-772 | with a partial that cannot be removed, a dashcam answering 416 makes the call send exactly n requests and still want another, for every n |
| `Download.MarkedIff` | blackvuesync/sync.py:748-778 | for a name that is not there and not held back: after an attempt a failure marker stands iff the dashcam answered with an HTTP error other than a 416 to a Range request (and the marker could be written), or an earlier one could not be removed; so a URL error leaves none |
| `Download.HttpFailureIsMarked` | blackvuesync/sync.py:748-778 | after such an answer the call returns a failure, the marker holds the time of the failure, and nothing else has changed |
| `Resumption.WholeIsStored` | blackvuesync/sync.py:781-876 | a body that completes the file, read to its end, under headers that state the true size or none: the file gets its final name, byte for byte, the partial goes, no other file changes, and the bytes counted are those of this body |
| `Resumption.CutIsKept` | blackvuesync/sync.py:582-606 | a body of which only some bytes came, so that the call did not finish the file: the partial holds exactly the file's bytes up to there, and no other file changes |
| `Resumption.CutThenCompleted` | blackvuesync/sync.py:696-876 | the next call asks for exactly the rest, and an answer with it completes the file |
| `Downloader.Destination.StreamResponse` | blackvuesync/sync.py:582-606 | the streaming loop writes what the specification of a transfer says, chunk by chunk, in the right file mode |
| `Downloader.Destination.TransferToTemp` | blackvuesync/sync.py:696-745 | one request, the decision on its reply, and the streaming, on the destination in place |
| `Downloader.Destination.DownloadFile` | blackvuesync/sync.py:781-876 | the whole call equals the specification that the safety results are about: files, markers, outcome and events |
| `Downloader.Destination.HandleHttpError` | blackvuesync/sync.py:748-778 | a 416 on a Range request restarts once the partial is gone; every other error is marked as failed |
| `Recordings.SelectedIffWanted` | blackvuesync/sync.py:1139-1166 | a listed recording is selected iff it is not before the cutoff, matches some include code if there are any, and no exclude code |
| `Recordings.ParsedIffNamed` | blackvuesync/sync.py:311-345 | a name is parsed iff it is 8 digits, `_`, 6 digits, `_`, a type letter, a direction letter, an optional `L` or `S` and `.mp4`, and into these parts |
| `Recordings.MatchesIffSelects` | blackvuesync/sync.py:1148-1152 | a code of one letter selects by type, one of two by type and direction, and no other code anything |
| `Recordings.OutdatedIffRemoved` | blackvuesync/sync.py:1108-1136 | the two-stage search and removal takes exactly the files dated before the cutoff |
| `Recordings.OutdatedIffPast` | blackvuesync/sync.py:1108-1136 | these are the files in the directory of their own group whose name is a base name dated before the cutoff, `_`, a type letter and, further on, a dot |
| `Recordings.TempIffPartialName` | blackvuesync/sync.py:1326 | pruning looks at exactly the names of a dot and then a base name, `_`, a type letter and, further on, a dot |
| `Recordings.CleanedIs` | blackvuesync/sync.py:1320-1346 | the clean-up removes exactly what is in group directories without a name that ends in `.mp4` |
| `Recordings.FileNameShape` | blackvuesync/sync.py:353-358 | the names of a recording's artifacts start with its base and an underscore, as the removal patterns expect, and are no dot-files |
| `SyncRun.CallCounts` | blackvuesync/sync.py:904-947 | one download adds the same bytes and files to publisher and metrics, also when it restarts midway |
| `SyncRun.DlReports` | blackvuesync/sync.py:904-947 | each file is counted once: completed iff the download returns true, skipped iff it returns false without having started (so a file already there is skipped, and nothing changes but that count), failed otherwise |
| `SyncRun.StartingTotal` | blackvuesync/sync.py:1311-1313 | the total published before the first file is the selected recordings times the kinds a with a = mp4 or a not in skip_metadata |
| `SyncRun.ConservedThroughout` | blackvuesync/sync.py:1304-1317 | at every artifact of every recording: completed + failed + skipped is the number of unskipped files up to that position (at most that after an exception), files_total is recordings times unskipped artifacts minus skipped, and publisher and metrics agree |
| `SyncRun.RunAccounts` | blackvuesync/sync.py:1264-1317 | a run that returns ends with completed + failed = files_total; however it ends, publisher and metrics agree on bytes and, outside dry run, on files |
| `SyncRun.SecondRunIsIdle` | blackvuesync/sync.py:653-693 | after a run without failures every selected recording's files, of each kind that is mp4 or not in skip_metadata, are present, also after the clean-up; a second run sends no record request and leaves the destination as it is |
| `SyncRun.PreparationIsExact` | blackvuesync/sync.py:1187-1226 | what preparation leaves: exactly the files and markers not dated before the cutoff, exactly the root's partials of wanted recordings, and every dot-file in a group directory, with their contents |
| `SyncRun.FetchesOnlyWanted` | blackvuesync/sync.py:1288-1317 | every request is for the file, of a kind that is mp4 or not in skip_metadata, of a listed recording that passes cutoff, include and exclude |
| `SyncRun.RunIsSafe` | blackvuesync/sync.py:1264-1317 | a whole run, with its removals, keeps the destination safe; without failures every file of a selected recording, of a kind that is mp4 or not in skip_metadata, that the dashcam has equals its source |
| `SyncRun.FullDiskEndsTheRun` | blackvuesync/sync.py:887-899 | at a recording with the disk over its limit the run raises with one failure counted: nothing more is asked for, stored or published |
| `SyncRun.RetryDelayHeldIff` | blackvuesync/sync.py:1329-1346 | with a marker younger than the delay, after the clean-up a call asks for nothing iff the marker's directory is the root, out of the grouping's reach, or holds a name that ends in `.mp4` |
| `SyncRun.FailureIsHeldIff` | blackvuesync/sync.py:748-778 | the same from the failing call on: after an HTTP error, the clean-up and a call within the delay |
| `SyncedView.SyncedIsShown` | blackvuesync/sync.py:879-1004 | after a run without failures the viewer's entry for each selected recording's directory and instant shows its direction, its thumbnail, position and accelerometer files, as far as they are not skipped |
| `Syncer.Syncer.PrepareDestination` | blackvuesync/sync.py:1187-1226 | the removal loops leave the specified destination |
| `Syncer.Syncer.PruneOrphanPartials` | blackvuesync/sync.py:1349-1364 | the pruning loop leaves the specified destination |
| `Syncer.Syncer.CleanDestination` | blackvuesync/sync.py:1329-1346 | the clean-up loop leaves the specified destination |
| `Syncer.Syncer.DownloadRecording` | blackvuesync/sync.py:879-1004 | the artifacts of one recording in table order, with skips, exceptions and counting, equal to the specification that `DlReports`, `StartingTotal`, `SecondRunIsIdle` and `FetchesOnlyWanted` are about |
| `Syncer.Syncer.SyncRecordings` | blackvuesync/sync.py:1264-1317 | the run over a listing, with the disk check before each recording, equal to the specification |
| `Syncer.Syncer.Sync` | blackvuesync/sync.py:1229-1261 | the job is begun first and ended whatever happens |
| `Progress.ProgressPublisher.BeginJob` | blackvuesync/server/progress.py:112-135 | a new job replaces the snapshot, cancels the timer and is offered to every subscriber |
| `Progress.ProgressPublisher.SetTotal` | blackvuesync/server/progress.py:137-145 | the total excludes what was already skipped; the snapshot is offered to every subscriber |
| `Progress.ProgressPublisher.StartFile` | blackvuesync/server/progress.py:147-180 | the new current file, at once offered to every subscriber |
| `Progress.ProgressPublisher.UpdateBytes` | blackvuesync/server/progress.py:182-228 | only the current file's byte count and size change, no total does; publishing is throttled; nothing happens without a current file |
| `Progress.ProgressPublisher.FinishFile` | blackvuesync/server/progress.py:230-256 | completed + failed grows by exactly one iff there is a current file, completed only on success, and bytes by the file's only then |
| `Progress.ProgressPublisher.SkipFile` | blackvuesync/server/progress.py:258-271 | moves one file from the total to the skipped |
| `Progress.ProgressPublisher.EndJob` | blackvuesync/server/progress.py:273-294 | publishes the end and arms a timer for this job |
| `Progress.ProgressPublisher.FireTimer` | blackvuesync/server/progress.py:336-347 | a timer, even a cancelled one, resets only its own job and only when it is not running |
| `Runner.ReachableInv` | blackvuesync/server/sync_runner.py:32-183 | the invariant of trigger threads, sync threads, stop handlers and timers in every reachable state |
| `Runner.OneRunUnderLock` | blackvuesync/server/sync_runner.py:49-79 | at most one run is active, only with the lock held; a published "running" is that run's |
| `Runner.EveryRunPublishesItsEnd` | blackvuesync/server/sync_runner.py:155-183 | every run publishes a terminal state under its own id before it releases the lock; the last one says complete exactly when it succeeded and no timer came in between |
| `Runner.TimerSparesOtherJobs` | blackvuesync/server/progress.py:336-347 | a timer leaves the snapshot of every job but its own, also of one that has released the lock, and of every job at work; it resets it iff it is its own job's and that job is not at work |
| `Runner.LockHolderCanMove` | blackvuesync/server/sync_runner.py:67-78 | whoever holds the lock always has a next step |
| `Runner.LockIsReleased` | blackvuesync/server/sync_runner.py:67-78 | in every run, while the lock is held without a break, at most eight steps take its holder on, apart from its work |
| `RunnerLimits.BusyAnswerIff` | blackvuesync/server/sync_runner.py:49-65 | in every reachable state a refused trigger is told the one job that holds the lock iff the holder has named it, else no job or one that has ended |
| `RunnerLimits.BusyAnswerCanBeStale` | blackvuesync/server/sync_runner.py:49-65 | a run in which it is told the job before |
| `RunnerLimits.StartedIsTold` | blackvuesync/server/sync_runner.py:67-78 | in every reachable state the triggers answered "started" and the runs match one to one: each was told the id of the run it started |
| `RunnerLimits.StopHitsAnotherIff` | blackvuesync/server/routes/api_sync.py:135-166 | in every reachable state in which the handler, having seen job j, sets the flag: some continuation without a further stop has another job at work under it iff the lock is held by a trigger past its clearing of the flag, or by another job with its work still to do |
| `RunnerLimits.StopCanHitALaterJob` | blackvuesync/server/routes/api_sync.py:141-149 | both windows are reached after the job the handler saw has succeeded |
| `Runner.SuccessCanBeRepublishedAsFailure` | blackvuesync/server/sync_runner.py:155-183 | a timer during a long clean-up makes a success end as failed |
| `Entries.EntriesAreTheInstants` | blackvuesync/server/viewer_index.py:102-123 | one entry per recording instant with a video in the directory, and no other (what each holds: `EntryIsExact`) |
| `EntryContents.EntryIsExact` | blackvuesync/server/viewer_index.py:52-95 | for every entry e of any file names: (c, v) is among its videos iff v is a video of e's instant and direction c and no other such is shorter, or as long and smaller; a thumbnail (c, t) is listed iff there is such a v and t is the unflagged `.thm`, or, without that, v's stem with `.thm`; both ascend by direction; gps and accelerometer flags hold iff those names are there |
| `EntryContents.KeyOrderIs` | blackvuesync/server/viewer_index.py:98-99 | newest first is by base name from the largest, then by directory, as texts are compared: the parsed times decide nothing else |
| `Entries.NewestFirstUnique` | blackvuesync/server/viewer_index.py:98-99 | sorting by key leaves no choice: two newest-first orders with the same entries under each key are equal |
| `Entries.SortedConcatIsAnswer` | blackvuesync/server/viewer_index.py:98-99 | concatenating directories in any order and sorting gives the answer |
| `FileTree.ChangeEvolves` | blackvuesync/server/viewer_index.py:189-218 | creating, removing and renaming files and making and removing directories stamp the directories they change, whatever the clock tick up to two seconds |
| `FileTree.ReachedAll` | blackvuesync/server/viewer_index.py:126-136 | without skipped directories the index reaches every directory of the tree |
| `IndexAnswer.ReachedIff` | blackvuesync/server/viewer_index.py:142-147 | a directory is reached iff it is in the tree and no part of its path starts with `.`, `@` or `#` |
| `RecordingIndex.TrustSurvives` | blackvuesync/server/viewer_index.py:189-218 | no step of the outside world makes a trusted listing wrong: a change gives the directory a newer stamp |
| `RecordingIndex.WindowMustCoverTheTick` | blackvuesync/server/viewer_index.py:189-218 | a cached listing that counts as old enough shows what the directory holds whenever their stamps agree, after every run of changes, iff stamps are no coarser than the window |
| `RecordingIndex.QuietWalkIsRescan` | blackvuesync/server/viewer_index.py:220-246 | a walk with cached listings finds exactly what a walk from scratch finds |
| `RecordingIndex.BuildDays` | blackvuesync/server/viewer_index.py:220-251 | the dict filled by date in entry order has, as its items, non-empty day lists, newest day first, that concatenate to the entries |
| `RecordingIndex.BuildByKey` | blackvuesync/server/viewer_index.py:220-251 | the key table returns the first match in entry order |
| `IndexAnswer.AnswerTells` | blackvuesync/server/viewer_index.py:102-136 | an answer tells the tree it was made from: one entry for every recording instant that some video file in a directory that counts belongs to, and no other, with the files it has there, in order; stated of names and directories alone |
| `IndexAnswer.IndexTells` | blackvuesync/server/viewer_index.py:220-255 | the directories that count for the index are those with a visible path |
| `IndexAnswer.DayViewTells` | blackvuesync/server/viewer_index.py:257-259 | each day list is not empty and holds recordings whose base names start with its date; dates fall from list to list |
| `IndexAnswer.FirstMatchIsFirst` | blackvuesync/server/viewer_index.py:261-263 | a lookup gives the first entry with this base name and type, and nothing iff there is none |
| `ViewerIndex.ListRecordings` | blackvuesync/server/viewer_index.py:126-136 | the plain walk's answer tells the whole tree (as in `AnswerTells`): every instant once, with its files, newest first |
| `ViewerIndex.IndexEqualsListing` | blackvuesync/server/viewer_index.py:220-255 | on a tree without skipped directories the index and the plain walk return the same sequence |
| `ViewerIndex.Index.GetListing` | blackvuesync/server/viewer_index.py:189-218 | the listing it returns is right at the time of the call, reused or scanned, and is cached only with what makes it trustworthy |
| `ViewerIndex.Index.Walk` | blackvuesync/server/viewer_index.py:220-246 | the worklist visits every reachable directory once and ends, while the world changes |
| `ViewerIndex.Index.Refresh` | blackvuesync/server/viewer_index.py:220-246 | vanished directories are dropped and the views follow the listings, also when the merge is skipped |
| `ViewerIndex.Index.Entries` | blackvuesync/server/viewer_index.py:253-255 | with the tree at rest during the call: the answer of a walk from scratch, which tells the visible part of the tree |
| `ViewerIndex.Index.DaysOf` | blackvuesync/server/viewer_index.py:257-259 | the same entries, parted by day: dates fall, and each list holds the recordings of its date |
| `ViewerIndex.Index.Find` | blackvuesync/server/viewer_index.py:261-263 | the first of the same entries with this base name and type |
| `Journey.JourneyChain` | blackvuesync/server/viewer_index.py:280-302 | the maximal run of same-type segments with gaps in (0, 120] seconds from the start |
| `Journey.ChainUnique` | blackvuesync/server/viewer_index.py:280-302 | there is only one such run |
| `Journey.ChainFromMember` | blackvuesync/server/viewer_index.py:280-302 | starting from any member gives exactly the rest of the chain, also with duplicate recordings |
| `CronStandard.FieldIsRead` | blackvuesync/settings.py:94-120 | the code's splitting and matching accepts exactly the texts that the crontab format puts together from stars, values, ranges, steps and commas |
| `CronStandard.MatchIsRead` | blackvuesync/settings.py:94-120 | and reads exactly the values that the format gives them |
| `CronStandard.WordsAreSpelled` | blackvuesync/settings.py:123-134 | the words a text is split into are exactly those it is put together from with blanks before, between and after them, in this order |
| `Cron.ExpandCronField` | blackvuesync/settings.py:94-120 | the loop rejects exactly what is no field of the format, and collects exactly the values the format gives it |
| `Cron.ParseAcceptsTheFormat` | blackvuesync/settings.py:123-134 | an expression is parsed, and into these five fields, iff it is put together from these five words and each is a field of the format: the first of minutes, then hours, days, months and days of the week |
| `Cron.NamelessField` | blackvuesync/settings.py:137-165 | minute, hour and day of month, in the scheduler's reading, match the values the format gives them |
| `Cron.MonthField` | blackvuesync/settings.py:137-165 | so does the month, its names turned into numerals |
| `Cron.DowFieldMeans` | blackvuesync/settings.py:137-165 | the emitted day-of-week field matches the same days, with 0 and 7 both Sunday, although the scheduler counts from Monday |
| `Cron.CompiledCronMeansCron` | blackvuesync/settings.py:123-165 | for every text put together from five fields w0..w4 of the format and every instant, the OR of the emitted triggers fires exactly when w0 matches the minute, w1 the hour, w3 the month and the day fields w2 and w4 the day: both, or one of them when neither starts with a star |
| `Cron.CompiledFieldsAcceptedIff` | blackvuesync/settings.py:188-203 | the scheduler can read every emitted field, and takes the triggers iff each stepped item of minute, hour, day and month has a step within its range |
| `LogRing.LogBuffer.constructor` | blackvuesync/server/log_buffer.py:90-96 | an empty ring with a capacity of at least 1 |
| `LogRing.LogBuffer.Emit` | blackvuesync/server/log_buffer.py:104-135 | one more line, the newest kept, each queue offered it unless full; nothing when the record has no text |
| `LogRing.LogBuffer.Snapshot` | blackvuesync/server/log_buffer.py:137-140 | the newest lines of the log under their own numbers, oldest first: at most the capacity, at least one if any was emitted |
| `LogRing.LogBuffer.SetCapacity` | blackvuesync/server/log_buffer.py:142-149 | the newest lines that fit are kept |
| `LogRing.LogBuffer.Subscribe` | blackvuesync/server/log_buffer.py:151-164 | a new empty queue; nothing is replayed |
| `LogRing.LogBuffer.Unregister` | blackvuesync/server/log_buffer.py:166-169 | removes that queue and no other |
| `LogRing.LogBuffer.Drain` | blackvuesync/server/log_buffer.py:171-192 | one batch holds everything queued, in order |
| `LogRing.RingReachesBack` | blackvuesync/server/log_buffer.py:104-149 | a line is out of the ring only when more than a capacity's worth came after it, over any emits and resizes |
| `LogsView.LogsPage.MaxRenderedSeq` | blackvuesync/server/static/js/logs.js:60-68 | the largest number among the rows, 0 for none |
| `LogsView.LogsPage.SyncBoot` | blackvuesync/server/static/js/logs.js:118-128 | the restart test on boot id and newest line, the marker row and the reset watermark |
| `LogsView.LogsPage.AppendLines` | blackvuesync/server/static/js/logs.js:138-153 | only lines above the watermark are added, and the watermark follows |
| `LogsView.LogsPage.TrimToCapacity` | blackvuesync/server/static/js/logs.js:193-198 | removes as many first nodes as there are rows too many |
| `LogsView.LogsPage.OnFrame` | blackvuesync/server/static/js/logs.js:231-244 | both, in this order |
| `LogsView.LogsPage.ClearView` | blackvuesync/server/static/js/logs.js:90-93 | an empty pane, with the watermark kept |
| `LogsView.TrimReachesCapacityIff` | blackvuesync/server/static/js/logs.js:193-198 | the pane ends within its capacity iff no removed node is white space |
| `LogsView.FullPageOverflows` | blackvuesync/server/templates/logs.html:34-43 | every page that was served full keeps one row too many at the next line |
| `LogTelling.FrameOutcome` | blackvuesync/server/static/js/logs.js:118-153 | after any frame the page is on its process and at its newest line, and the rows added are the marker, if any, and the lines it had not shown |
| `LogDelivery.SoundRun` | blackvuesync/server/routes/api_logs.py:72-89 | in every run of emits, resizes, connections, snapshots, drains, deliveries, cuts, restarts and reloads: frames hold true lines in order and the page's watermark is its last row |
| `LogContinuity.OrderedAlways` | blackvuesync/server/static/js/logs.js:138-153 | in every run, rows between two restart rows are lines of one process in their order, none twice; the pane holds the last of them |
| `LogContinuity.RestartRowsAreTrue` | blackvuesync/server/static/js/logs.js:118-128 | while no line is dropped before a snapshot: a restart row stands exactly where the process changed, and no line is ever shown twice |
| `LogContinuity.EveryLineOnce` | blackvuesync/server/routes/api_logs.py:72-89 | while no line is dropped and each snapshot reaches back to the last row: the rows of a process are consecutive lines, each exactly once, across snapshot, stream and reconnects |
| `LogContinuity.EveryLineOnceWhenNear` | blackvuesync/server/routes/api_logs.py:72-89 | the same whenever no queue fills up and each snapshot comes before more than a capacity's worth of lines has followed the last row |
| `LogContinuity.QuietPageIsCurrent` | blackvuesync/server/routes/api_logs.py:72-89 | then, with nothing under way, the last row is the newest line |
| `LogRestarts.FalseRestartIff` | blackvuesync/server/static/js/logs.js:118-128 | in every run, for the frame that arrives next: it brings a restart row iff its process is a later one than the page's, or it is the first batch of its stream and the queue had dropped every line from the snapshot's newest one on; in the second case the page is on that process already |
| `LogRestarts.FalseRestartHappens` | blackvuesync/server/log_buffer.py:131-135 | a run with one process in which this happens, for every number of lines above the queue's size |
| `RateLimiter.TrimmedIsTail` | blackvuesync/server/auth.py:101-102 | trimming leaves a tail of the deque and drops only times before the window |
| `RateLimiter.RateLimiter.IsLoginLockedOut` | blackvuesync/server/auth.py:85-103 | the answer, and what the check removes |
| `RateLimiter.RateLimiter.PruneRateLimitState` | blackvuesync/server/auth.py:106-122 | stale deques and expired lockouts go, then the oldest entries beyond the cap, in both tables |
| `RateLimiter.RateLimiter.RecordLoginFailure` | blackvuesync/server/auth.py:125-144 | room is made only for a new address; the failure is counted and may set a lockout |
| `RateLimiter.RateLimiter.ClearLoginFailures` | blackvuesync/server/auth.py:147-151 | the address leaves both tables: at any time afterwards an address is locked out iff it is another one that was before |
| `LoginHistory.LockedIffTripped` | blackvuesync/server/auth.py:85-151 | an address not pushed out since its last clear is locked at t iff some failure at s since then had at least 10 failures in [s-600, s] and s <= t < s+900; the window test of the check never decides |
| `LoginHistory.NeverLockedWithoutCause` | blackvuesync/server/auth.py:85-151 | for every address, pushed out or not: locked only if that holds |
| `LoginHistory.LockoutKeptIff` | blackvuesync/server/auth.py:106-144 | in every reachable state, an address locked out stays so at the failure of another one iff no room has to be made, or its lockout, or its full window, is not among the oldest entries that go, counted in the table; its history asks for the lockout either way |
| `LoginHistory.PruneIsExact` | blackvuesync/server/auth.py:106-122 | pruning keeps, unchanged, exactly the addresses with a failure in the window (a lockout still running) that have fewer than 9999 such ones after them in the table's order |
| `LoginHistory.EvictedIff` | blackvuesync/server/auth.py:106-144 | the addresses a failure pushes out are exactly those that are neither stale nor expired and do not keep their place, and only when a new address finds a table full |
| `LoginHistory.PushedOutIsLetIn` | blackvuesync/server/auth.py:118-122 | a run from the empty tables in which a failure of another address lets in one that was locked out and is due to be |
| `LoginHistory.TablesStayBounded` | blackvuesync/server/auth.py:106-144 | at most M addresses with failures, M-1 lockouts without failures, 2M-1 lockouts, in every reachable state |
| `Forecast.FitIsLeastSquares` | blackvuesync/server/forecast.py:25-35 | no line has a smaller squared error, also when all timestamps coincide; when they do not, no other line has the same |
| `Forecast.ComputeForecast` | blackvuesync/server/forecast.py:38-71 | nothing with fewer than three ratios, else one clamped point on the fitted line per step, counted from the last sample with a ratio |
| `Forecast.ProjectionIsNearest` | blackvuesync/server/forecast.py:66-69 | each value is in [0, 1], at most every non-negative ceiling, and of all such numbers the nearest to the line |
| `Forecast.ProjectionFollowsSlope` | blackvuesync/server/forecast.py:63-70 | the projection rises with a rising line and falls with a falling one |
| `Forecast.MissingRatiosAreIgnored` | blackvuesync/server/forecast.py:52 | a sample without a ratio changes nothing, wherever it stands |
| `Forecast.CleanPoints` | blackvuesync/server/forecast.py:52 | the points fitted are the samples with a ratio, in order, each as (timestamp, ratio) |
| `Forecast.StepsAreEven` | blackvuesync/server/forecast.py:60-64 | projected timestamps start one step after the last sample, are evenly spaced and end at the horizon |
| `FieldTypes.SplitLoop` | blackvuesync/settings.py:211-227 | the loop splits at separators outside brackets and strips the parts |
| `FieldTypes.SplitGivesOptions` | blackvuesync/settings.py:211-227 | splitting the text of a type at its bars gives the texts of its options |
| `FieldTypes.TextMeansType` | blackvuesync/settings.py:235-264 | interpreting the annotation text of a type decides that type, for every value, and never raises |
| `Settings.FieldReloadsIff` | blackvuesync/settings.py:668-710 | a well-typed field survives storing and loading iff it does not hold a list |
| `Settings.ReloadsIffNoLists` | blackvuesync/settings.py:680-722 | the same for whole settings |
| `Settings.LoadedIsClean` | blackvuesync/settings.py:688-722 | whatever the file holds, loaded fields have their types, and tuples where declared |
| `Settings.LoadedField` | blackvuesync/settings.py:688-722 | exactly what each field is after loading: the stored value where it has the field's type, a tuple of the items of a list whose items have, and the default otherwise, also where section or field is missing |
| `Settings.StoredIsJson` | blackvuesync/settings.py:668-686 | what is stored is JSON at every depth: lists in place of tuples and nothing else changed |
| `Settings.SameIff` | blackvuesync/settings.py:814-819 | the comparison of old and new values, as Python defines it: numbers and booleans by value across types, texts and sequences element by element and within one kind |
| `Settings.BrokenNeverGrows` | blackvuesync/settings.py:804-823 | an accepted update of well-typed fields makes no section invalid, although only changed sections are checked |
| `Settings.AcceptedBreaksIff` | blackvuesync/settings.py:814-819 | an accepted update makes a valid section invalid iff the section compares equal to the old one and a field lost its type to an equal value |
| `Settings.RetypedIsANumber` | blackvuesync/settings.py:814-819 | that value is an equal number of another type, alone or as an item of a tuple field |
| `Settings.EqualNumberSlipsThrough` | blackvuesync/settings.py:814-819 | a number in place of an equal boolean is accepted unchecked and does not reload |
| `SettingsSchema.SchemaIsGood` | blackvuesync/settings.py:312-665 | the eleven sections, with their types and defaults, meet what the results above assume |
| `SettingsSchema.AnnotationsAreRead` | blackvuesync/settings.py:235-264 | for every field of the eleven sections the interpretation of its annotation decides its type, for every value, and never raises |
| `SettingsStore.AcceptedIffNoErrors` | blackvuesync/settings.py:811-823 | an update is refused iff some changed section is invalid or the secret is empty |
| `SettingsStore.SettingsStore.Update` | blackvuesync/settings.py:804-833 | memory, file, result and notified listeners, for every outcome of the save |
| `SettingsStore.SettingsStore.constructor` | blackvuesync/settings.py:1011-1032 | the opened state is that of the specification which `RestartRestores`, `OpenedIsLoaded` and `OpenedWithoutFile` are about, and no listener is told |
| `SettingsStore.UpdateKeeps` | blackvuesync/settings.py:804-833 | the secret stays non-empty, no section becomes invalid, a refused update changes nothing, one that returns leaves a file that reloads to memory |
| `SettingsStore.OpenedIsHealthy` | blackvuesync/settings.py:1011-1032 | whatever the file held, the opened store is well-typed, has a secret, and its file reloads to it |
| `SettingsStore.OpenedIsLoaded` | blackvuesync/settings.py:1017-1029 | for any file, every field is as loaded, but an empty secret, which is replaced by the fresh one; the file is written iff the secret was empty |
| `SettingsStore.OpenedWithoutFile` | blackvuesync/settings.py:1030-1032 | without a file, the settings are those of the environment, and are in the file at once |
| `SettingsStore.RestartRestores` | blackvuesync/settings.py:1017-1020 | opening the file of any healthy settings restores them, whatever the environment holds, and leaves the file alone |
| `SettingsStore.RestartAfterRun` | blackvuesync/settings.py:1017-1020 | opening the file after any sequence of updates, none failing after its rename, restores what was in memory |
| `SettingsStore.RunKeepsHealth` | blackvuesync/settings.py:804-833 | the same over every sequence of updates, also when saves fail |
| `SettingsStore.FileFollowsMemory` | blackvuesync/settings.py:804-892 | while no save fails after its rename, the file reloads to memory after every run |
| `SettingsStore.FailedSaveCanStick` | blackvuesync/settings.py:866-872 | a save that fails after the rename leaves the old settings in memory, while a restart opens with the new ones; the file reloads to memory iff they are the same |
| `AtomicFile.SaveIsAtomic` | blackvuesync/settings.py:844-872 | wherever a save ends, the name leads to an earlier whole text or the whole new one; only to the new one when it completed, only to earlier ones before the rename |
| `AtomicFile.CrashLeavesOldOrNew` | blackvuesync/settings.py:844-872 | after a completed save, a crash at any point of the next leaves the old or the new file |
| `AtomicFile.NeverPartial` | blackvuesync/settings.py:844-872 | over any sequence of saves, failures and crashes the file holds the first text or that of a save that reached its rename |
| `AtomicFile.LastSaveIsRead` | blackvuesync/settings.py:844-872 | after saves that ran through, the file holds all chunks of the last one, in order, now and after a crash |
| `PatchSettings.CheckedFits` | blackvuesync/server/routes/api_settings.py:68-161 | what passes the checks names known fields, no secret, with values of their types and tuples for lists (what it is: `DecidedIff`) |
| `PatchSettings.DecidedIff` | blackvuesync/server/routes/api_settings.py:68-162 | a patch is taken as p iff the section is known, p is the client's payload without the secrets, each value as sent or the tuple of its items for a list in a tuple field, secrets come only as `***`, p names known fields, and the section with p is valid; not found iff the section is unknown |
| `PatchSettings.StepKeepsGood` | blackvuesync/server/routes/api_settings.py:151-175 | a patch checked against settings that have changed since still breaks no section |
| `PatchSettings.EveryInterleaving` | blackvuesync/server/routes/api_settings.py:117-190 | under every interleaving each field is as the last accepted patch that names it left it, and each secret as the last route that sets it left it |
| `PatchSettings.AcceptedEditsStay` | blackvuesync/server/routes/api_settings.py:163-175 | in every interleaving, a field keeps the value that an accepted patch gave it until a later accepted patch names it |
| `PatchSettings.AnsweredEditsStay` | blackvuesync/server/routes/api_settings.py:117-190 | for the client: a patch that was checked, then, with anything in between, answered as applied, leaves each field as the client sent it (or the tuple of its items), until a later accepted patch names it |
| `PatchSettings.AppliedIff` | blackvuesync/server/routes/api_settings.py:117-190 | when that is the answer, whatever happens before the check and between check and update: iff the patch is taken for the settings it saw, leaves the section it then meets equal or valid, and the save succeeds |
| `PatchSettings.AppliedAloneIff` | blackvuesync/server/routes/api_settings.py:117-190 | with nothing in between and a save that succeeds: iff it is taken for the settings it saw |
| `PatchSettings.PasswordIsSet` | blackvuesync/server/routes/api_auth.py:106-112 | the route sets this secret and nothing else, iff the store accepts that and the save succeeds, after any events |
| `PatchSettings.SecretIsRotated` | blackvuesync/server/routes/api_auth.py:123-138 | so does the one for the session secret |

## Left out

- Headers of the dashcam's replies are taken as parsed: a Content-Range is a start and a total, a Content-Length is a number, absent or malformed; the regular expressions and the HTML listing are not modelled.
- Dates and times are ordered numbers; a file name with an impossible date, which raises in `to_recording`, is not modelled, and the group name is any function of the base name that keeps the source's shapes.
- `sort_recordings` is any permutation; its priorities would only add easy members.
- Destination: one level of group directories, as the sync writes it; deeper nesting is left out. Character classes are ASCII.
- The cron reading covers names, lists, ranges, steps and stars; time zones and daylight saving are left out. The scheduler (APScheduler 3.10) is not part of this repository: its reading of a field and its bound on steps are taken as that version has them.
- Job ids from `uuid4` are taken to be new.
- The runner is a state machine over the accesses to shared state rather than methods, since its results are about interleavings; exceptions that are not `Exception` are left out.
- `Runner.LockIsReleased`: takes starting the sync thread to succeed; a `start()` that raises (`blackvuesync/server/sync_runner.py:75-77`) leaves the lock held for good.
- Timestamps, speeds, the publish throttle's clock (`UpdateBytes` is told whether it is due) and the order of frames from the publisher's `subscribe` are left out.
- Directory changes exclude explicit utime and moving a directory over another with an equal stamp; directories are visited in scan order and merged in any order, which the results show not to matter.
- The log page's filters, scrolling, verbosity control and authentication probe; the `/recent` route; frames that are not valid JSON.
- A log line's level, logger, time and message are one text.
- The rate limiter's clock is non-negative and does not go back, as a monotonic clock is expected to; floating-point rounding of its sums is left out.
- Forecast and statistics are over the reals, without rounding.
- Value checks of settings sections are a parameter: any check of well-typed sections that does not tell apart values Python calls equal. The environment bootstrap is a parameter with typed fields and a secret.
- Literal annotations hold strings, as all of the source's do; the type of a literal's values is not parsed from its text.
- The settings file is a parsed JSON object; file permissions, unreadable files and sections that are not objects, which raise, are left out. JSON objects as field values are one opaque value, never of a field's type.
- The crash model of `AtomicFile` takes a directory state as a whole: a file system that can lose half a rename is left out.
- Sockets, sessions, password hashing, proxy trust, media paths, metrics rendering, the statistics store, sensor and position parsing, and the other scripts and templates.
