# Verified model of subarr's coverage, verdict and sweep logic

subarr watches a media library, works out which files lack usable subtitles, and drives a
transcription service. Most of it is glue; the parts modelled here keep state over time or do
interval, text and aggregation work where mistakes are easy. Each module follows one component:

- `RefreshProtocol`: the coverage cache's kicks, debounce timer, "run again" flag, build lock and publish gate
- `AudioLangStore`, `VerdictMoves`: the table of audio-language verdicts, its carry-overs, relinks and id moves, and what sequences of them keep
- `VerificationLookup`: the bulk form of the verdict lookup used by a coverage build
- `ArenaService`, `ArenaLife`: concurrent recipe sweeps behind a semaphore, with write-through persistence and deletion; what a row tells, who the capacity gate lets in and how sweeps end
- `ArenaAggregate`, `ArenaStandings`, `ArenaBoard`, `ArenaReport`, `ArenaConfirm`, `ArenaPlaces`: the language report and the leaderboard built from sweeps
- `ForcedSegment`: windowing utterances for language identification and merging foreign spans
- `LogPump`: reassembling log lines from byte chunks and passing them through a bounded, dropping queue
- `CircuitBreaker`: the breaker in front of an upstream
- `AutoQueue`: the auto-queue decision, the backfill list and batch
- `ProbeIndex`: the index of probed paths by ancestor folder and how rows take their probe from it
- `ConfigStore`: locked loads and read-modify-writes of the override file with atomic replace
- `SidecarNames`: the forced-sidecar name writer and its three readers
- `Common`, `Dicts`, `Sorting`, `Text`: shared datatypes, insertion-ordered dictionaries, stable sorting, strings

An object whose methods update its fields is a class; each state-changing method is proved to make
exactly one step of a specification, and the properties are lemmas over all inputs or all runs of
that specification. A step of an asynchronous component is the code between two await points, so a
run is any interleaving of steps. Verify with `dafny verify dfyconfig.toml`.

Where the code and its documentation disagree, the model follows the code:

- A kick during a direct `refresh()` can be left with nothing to serve it (`RefreshProtocol.DirectBuildStrandsKick`).
- A publish that the database refuses restarts the count of held builds (`RefreshProtocol.FailedStoreRestartsCount`); four builds in a row may then publish nothing.
- `allow()` lets every call through while half-open, not one probe (`CircuitBreaker.HalfOpenAdmitsEverything`).
- The set of deleted sweeps can keep marks for good (`ArenaService.MarkGoesOnlyWithItsTask`).
- A failed rename aside lets a save replace a corrupt override file (`ConfigStore.CorruptFileLostExactly`).
- A movie row can be marked failed because another file in its folder failed, although the episode side is described as following the same rule (`ProbeIndex.MovieBlamedForAnotherFile`).
- One sweep of replaced files need not settle the table (`VerdictMoves.SweepSettlesExactly`).
- `max_wait_s` is documented to cap the wait of its request; during a build it is ignored (`RefreshProtocol.KickMeetsItsDeadline`).
- A machine verdict under a series intent is overruled by the bulk lookup but not by `get` (`VerificationLookup.EffectiveDiffersFromGet`).

## Model

| member | source | states |
|---|---|---|
| `RefreshProtocol.DegradedSources` | src/subarr/coverage_cache.py:74-84 | The result lists exactly the critical sources that are configured, failed in the new build and were healthy in the cached one. |
| `RefreshProtocol.CoverageCache.constructor` | src/subarr/coverage_cache.py:224-260 | A new cache is idle, with no timer, no flag and no holds. |
| `RefreshProtocol.CoverageCache.RequestRefresh` | src/subarr/coverage_cache.py:274-329 | One kick: remembers the newest arguments, raises the flag during a build, otherwise starts a task, arms the timer, or pulls an armed timer forward. |
| `RefreshProtocol.CoverageCache.FireDebounced` | src/subarr/coverage_cache.py:337-343 | The timer fires: the flag during a build, else one task with the newest arguments. |
| `RefreshProtocol.CoverageCache.StartRefreshTask` | src/subarr/coverage_cache.py:345-366 | Exactly one task is queued, with the arguments given. |
| `RefreshProtocol.CoverageCache.TaskTakesRefreshLock` | src/subarr/coverage_cache.py:345-353 | A queued task enters the build lock and leaves the queue; builds begin only when the lock is free. |
| `RefreshProtocol.CoverageCache.DirectTakesRefreshLock` | src/subarr/coverage_cache.py:461-499 | A direct refresh enters the same lock without touching flag, timer or queue. |
| `RefreshProtocol.CoverageCache.EndBuild` | src/subarr/coverage_cache.py:500-547 | The end of a build takes the modelled step: gate, completion time, lock released; only a task-started build drains the flag. `KicksKeepTheInterval` and `GateServesExactly` say what that step does to later kicks and to what is served. |
| `RefreshProtocol.NothingPendingMeansServed` | src/subarr/coverage_cache.py:267-272 | What `has_pending_refresh` tells its caller: in every reachable state, if neither flag nor timer is set and no started task waits for the lock, every kick so far has been followed by a build that began after it. |
| `RefreshProtocol.RunKeepsInv` | src/subarr/coverage_cache.py:483-547 | In every reachable state the refreshing mark agrees with the lock, whatever is pending has arguments, and holds never exceed 3. |
| `RefreshProtocol.NoKickLost` | src/subarr/coverage_cache.py:302-366 | In every reachable state, if a kick is newer than the start of the newest build, the timer is armed, a started task waits for the lock, or the flag is set. |
| `RefreshProtocol.KickBetweenBuildsWaits` | src/subarr/coverage_cache.py:302-366 | Sharper for a kick between builds: it waits on the timer or in the task queue. |
| `RefreshProtocol.KickDuringTaskBuildWaits` | src/subarr/coverage_cache.py:345-366 | Sharper for a kick during a task-started build: until its end the flag is set, afterwards a task is queued. |
| `RefreshProtocol.IdleServesEveryKick` | src/subarr/coverage_cache.py:345-366 | At rest, every kick has been followed by a build that began after it, if and only if it is not the case that the last build to begin was a direct one and a kick came after it began. |
| `RefreshProtocol.TaskBuildsServeEveryKick` | src/subarr/coverage_cache.py:345-366 | When every build was task-started and nothing is armed or running, every kick has been followed by a build that began after it. |
| `RefreshProtocol.DirectBuildStrandsKick` | src/subarr/coverage_cache.py:461-547 | A concrete run in which a direct build ends with the flag set and nothing left to serve the kick. |
| `RefreshProtocol.NewestArgsCarried` | src/subarr/coverage_cache.py:274-366 | The newest request's own arguments reach a build begun after it, or are still carried by a queued task, the timer or the flag. |
| `RefreshProtocol.KicksPayForTasks` | src/subarr/coverage_cache.py:302-329 | Started tasks, plus one for an armed timer, plus one for the flag, never exceed the kicks. |
| `RefreshProtocol.BurstStartsOneFollowUp` | src/subarr/coverage_cache.py:337-366 | Any number of kicks during one task-started build cause exactly one follow-up task, with the last kick's arguments. |
| `RefreshProtocol.KickMeetsItsDeadline` | src/subarr/coverage_cache.py:302-335 | Through any kicks and builds an armed timer stays armed until it fires, and is due by a given time if and only if it already was or a kick that came while no build held the lock gave a limit ending by then: such a limit is always kept, no kick delays the timer, and a limit given during a build counts for nothing. |
| `RefreshProtocol.LimitIgnoredDuringBuild` | src/subarr/coverage_cache.py:302-308 | A concrete run: a kick during a direct build asks for at most 5 seconds, and after the build nothing runs until the timer armed before is due, 100 seconds after the kick. |
| `RefreshProtocol.KickArmsInTime` | src/subarr/coverage_cache.py:302-335 | Outside a build and with no timer, a kick starts a task or arms a timer within its limit; without a limit the timer is due exactly when the interval since the last build ends. |
| `RefreshProtocol.KicksKeepTheInterval` | src/subarr/coverage_cache.py:302-335 | In every run, from the events alone: with no build and no timer, a kick starts a task at once unless the last build ended less than the interval ago; then it starts none, but arms the timer for exactly the end of the interval, or of its own limit if that is earlier. Before any build has ended a kick always starts one. |
| `RefreshProtocol.AtMostThreeHoldsInARow` | src/subarr/coverage_cache.py:504-532 | While nothing passes the gate each completed build uses a hold and the served snapshot stays, so of any four consecutive completed builds at least one passes the gate. |
| `RefreshProtocol.GateServesExactly` | src/subarr/coverage_cache.py:500-532 | A raised build changes neither what is served nor the counter; a built one is held exactly if bazarr, sonarr or radarr is configured and failing in it but healthy in what is served, and fewer than three have been held; any other is served if the database takes it. |
| `RefreshProtocol.CounterCountsHolds` | src/subarr/coverage_cache.py:508-529 | The counter equals the builds held since the last publish if and only if no store has failed after a hold since then; it is never more. |
| `RefreshProtocol.HoldsAreBounded` | src/subarr/coverage_cache.py:504-532 | While nothing is published the served snapshot stays, every completed build was held or failed to store, and the holds are at most 3 x (1 + failed stores). |
| `RefreshProtocol.FourBuildsPublish` | src/subarr/coverage_cache.py:504-532 | Of any four consecutive completed builds at least one publishes, with four more allowed for each failed store. |
| `RefreshProtocol.FailedStoreRestartsCount` | src/subarr/coverage_cache.py:519-529 | A concrete run of five completed builds, four of them held, that publishes nothing and ends with the counter at 1. |
| `RefreshProtocol.PublishedFailureHoldsNothing` | src/subarr/coverage_cache.py:74-84 | Once a failing source has been published it holds nothing back until a later publish shows it healthy. |
| `AudioLangStore.AudioLangStore.Upsert` | src/subarr/audio_lang_store.py:187-233 | Re-verifying replaces the row but never erases a recorded arr id; no other row changes. |
| `AudioLangStore.AudioLangStore.FindCarryOver` | src/subarr/audio_lang_store.py:349-412 | Finds a row to carry exactly when one qualifies: same season and episode, same show folder up to ASCII case, its file gone, all such rows agreeing on the language, the newest one, and the only video of its episode listed at the very place the target resolves to, so never a link. |
| `AudioLangStore.AudioLangStore.AgreedNewest` | src/subarr/audio_lang_store.py:395-412 | None exactly when the orphans disagree; otherwise the most recently verified of them. |
| `AudioLangStore.AudioLangStore.MoveVerdict` | src/subarr/audio_lang_store.py:430-466 | Moves one row to a path without a row, with every field kept and only the note of its origin added, or changes nothing; an existing verdict is never overwritten. |
| `AudioLangStore.AudioLangStore.CarryOver` | src/subarr/audio_lang_store.py:414-422 | Makes exactly the token move that is open, if any. |
| `AudioLangStore.AudioLangStore.Relink` | src/subarr/audio_lang_store.py:424-428 | Moves the named row when the target has none. |
| `AudioLangStore.AudioLangStore.SweepSuccessors` | src/subarr/audio_lang_store.py:468-500 | The replacement files of all gone episode files that have a single candidate. |
| `AudioLangStore.AudioLangStore.SweepCarryOvers` | src/subarr/audio_lang_store.py:468-511 | A sweep makes only legal moves and applies exactly the moves it reports, none if and only if none is open: first a token pass, by file name, in which every replacement file has its turn, then id moves until none is open. |
| `AudioLangStore.AudioLangStore.CarrySuccessors` | src/subarr/audio_lang_store.py:500-509 | The token pass gives each replacement file its turn: a row is moved there, or none was open at that point. |
| `AudioLangStore.AudioLangStore.CarryById` | src/subarr/audio_lang_store.py:513-568 | The id pass continues the token pass with legal id moves only and leaves no id move open. |
| `AudioLangStore.AudioLangStore.CarryOneById` | src/subarr/audio_lang_store.py:544-567 | One row's id move is made when it is open, and nothing changes otherwise. |
| `AudioLangStore.AudioLangStore.SoleClaimant` | src/subarr/audio_lang_store.py:544-560 | The one existing file of the row's own library that carries the row's arr id, exactly when there is one and it is not the row's own path. |
| `AudioLangStore.AudioLangStore.CollectClaims` | src/subarr/audio_lang_store.py:526-543 | The index from (source, id, library) to files lists exactly the files the snapshot names, each once. |
| `AudioLangStore.AudioLangStore.BackfillIds` | src/subarr/audio_lang_store.py:570-614 | Exactly the rows that have no id, whose file the snapshot names with at least one id and which is on disk, take exactly those ids; nothing else changes. |
| `AudioLangStore.AudioLangStore.SetSeriesIntent` | src/subarr/audio_lang_store.py:656-689 | The intent is stored under the prefix, with a slash added when it lacks one, replacing an earlier one. |
| `AudioLangStore.AudioLangStore.LookupSeriesIntent` | src/subarr/audio_lang_store.py:634-654 | A scan in any order returns the longest declared prefix of the path, and none exactly when there is none. |
| `AudioLangStore.AudioLangStore.Get` | src/subarr/audio_lang_store.py:258-283 | The file's own row, else the longest intent's. |
| `AudioLangStore.AudioLangStore.GetFollowingReplaced` | src/subarr/audio_lang_store.py:235-256 | As `Get` after the open token move to this path; nothing moves if and only if the path has a row or no such move is open. |
| `AudioLangStore.TokenMoveExactly` | src/subarr/audio_lang_store.py:349-412 | Field by field: a token move is open exactly if the file has no row, the walk of its show finds it as the only video of the episode at the place it resolves to, and the gone rows of the episode agree on language, class and codes; the latest of them moves. |
| `AudioLangStore.SuccessorExactly` | src/subarr/audio_lang_store.py:484-504 | The replacement files of a sweep are exactly those that the walk of the show lists alone for the episode of a row whose file is gone. |
| `AudioLangStore.IdMoveExactly` | src/subarr/audio_lang_store.py:513-568 | Field by field: an id move is open exactly if the row's file is gone and, of the files of its library, exactly one other carries its id (the sonarr one if it has one, else the radarr one), exists and has no row. |
| `AudioLangStore.BackfilledRowCanBeCarried` | src/subarr/audio_lang_store.py:513-614 | What the back-fill is for: a row without ids whose file was named and on disk can, once the file is gone, be carried by id to the one other file of its library that has the id, exists and has no row. |
| `AudioLangStore.InheritsUnique` | src/subarr/audio_lang_store.py:634-654 | A path inherits at most one intent. |
| `VerdictMoves.MovesConserve` | src/subarr/audio_lang_store.py:430-466 | Any sequence of moves keeps the row count; every row comes from a distinct earlier row with the same language, source, confidence, date and ids. |
| `VerdictMoves.UnmovedRowStays` | src/subarr/audio_lang_store.py:430-466 | A row nobody moves is exactly as before: no move overwrites it. |
| `VerdictMoves.StepClearsOrphan` | src/subarr/audio_lang_store.py:468-568 | Each sweep move takes a row away from a gone file, for one that exists: exactly one orphaned verdict fewer. |
| `VerdictMoves.SweepClearsOrphans` | src/subarr/audio_lang_store.py:468-568 | A sweep lowers the number of orphaned verdicts by exactly the number of its moves. |
| `VerdictMoves.SweepMovesForward` | src/subarr/audio_lang_store.py:468-568 | Every move of a sweep leaves a gone file for one that exists. |
| `VerdictMoves.SweepMovesAreDistinct` | src/subarr/audio_lang_store.py:468-568 | All sources and all targets of a sweep are pairwise distinct. |
| `VerdictMoves.ReplacementInherits` | src/subarr/audio_lang_store.py:468-511 | The case the sweep is for: when an episode file is gone, the walk finds one new video of it without a row, the gone rows agree and no other replacement file could take them, then after any sweep the new file has the latest row, unchanged but for the note of its origin. |
| `VerdictMoves.IdReplacementInherits` | src/subarr/audio_lang_store.py:513-568 | Likewise by id: a row no token could carry, whose id leads to a free file that nothing else can take, is at that file after any sweep. |
| `VerdictMoves.SweepsStabilise` | src/subarr/audio_lang_store.py:468-511 | On an unchanged disk, repeated sweeps stop moving after at most as many sweeps as there were orphans. |
| `VerdictMoves.SweepSettlesExactly` | src/subarr/audio_lang_store.py:468-568 | Told before the sweep: where it is plain for the contested files (replacement files without a row whose orphans disagree) which orphans will leave by id and which stay, every sweep, whatever the scan order, settles the table if and only if no contested file has staying orphans that agree. |
| `VerdictMoves.LeftOpenWasContested` | src/subarr/audio_lang_store.py:468-568 | For every sweep: whatever it leaves open is a token move to a file that was contested before it, and the sweep carried away an orphan whose language disagreed with the row left. |
| `VerdictMoves.CalmSweepSettles` | src/subarr/audio_lang_store.py:468-568 | Told before the sweep: if no orphan of a contested file can be carried away, by an id whose file is free or as the orphan of another replacement file, one sweep settles the table; in particular when no file is contested. |
| `VerdictMoves.OneSweepMayNotSettle` | src/subarr/audio_lang_store.py:468-568 | A concrete table where one sweep leaves a move open: an id move removes the row whose language blocked a token move. |
| `VerdictMoves.ExampleIsForeseen` | src/subarr/audio_lang_store.py:468-568 | In that table the outcome can be told before the sweep, as `SweepSettlesExactly` says. |
| `VerdictMoves.BackfillIsIdempotent` | src/subarr/audio_lang_store.py:570-614 | Back-filling twice is back-filling once; a recorded id is never replaced and only ids change. |
| `VerdictMoves.BackfillLeavesMovesAlone` | src/subarr/audio_lang_store.py:570-614 | The back-fill opens and closes none of a sweep's moves. |
| `Text.LikePrefixMatchesUnder` | src/subarr/audio_lang_store.py:151-160 | The escaped LIKE pattern of a prefix matches exactly the paths below it up to ASCII case, whatever wildcards the prefix holds. |
| `VerificationLookup.FirstMatchIsLongest` | src/subarr/coverage_engine.py:1428-1436 | In entries sorted longest first, the first match is a longest match. |
| `VerificationLookup.SeriesIntentLookup.constructor` | src/subarr/coverage_engine.py:1415-1424 | The entries are kept longest prefix first. |
| `VerificationLookup.SeriesIntentLookup.MatchIntent` | src/subarr/coverage_engine.py:1428-1436 | The loop returns the first matching entry's value. |
| `VerificationLookup.SeriesIntentLookup.Contains` | src/subarr/coverage_engine.py:1438-1441 | Membership means: own row or a matching prefix. |
| `VerificationLookup.SeriesIntentLookup.Get` | src/subarr/coverage_engine.py:1449-1453 | Own row first, else the longest matching prefix. |
| `VerificationLookup.SeriesIntentLookup.Pop` | src/subarr/coverage_engine.py:2220-2221 | Drops one row and keeps the intents. |
| `VerificationLookup.ListSeriesIntents` | src/subarr/audio_lang_store.py:701-722 | Lists every declared intent once, in some order. |
| `VerificationLookup.MatchIsInherited` | src/subarr/coverage_engine.py:1415-1436 | The first match in the sorted list is the intent that the store's own loop inherits, and there is none when that finds none. |
| `VerificationLookup.BuildVerificationLookup` | src/subarr/coverage_engine.py:1488-1510 | For every path, the bulk pair of lookups mirrors the store's per-path answer. |
| `VerificationLookup.BulkAgreesWithGet` | src/subarr/coverage_engine.py:1400-1510 | For every path, the bulk lookups give the same language and the same source as `AudioLangStore.get`. |
| `VerificationLookup.SplitMachineRows` | src/subarr/coverage_engine.py:2212-2221 | Machine rows leave the user layer for a layer of their own; all other rows and all intents stay. |
| `VerificationLookup.MachineExactly` | src/subarr/coverage_engine.py:2212-2214 | A verdict counts as a machine's exactly if its source spells `whisper` or `auto` somewhere, in any case. |
| `VerificationLookup.EffectiveLanguage` | src/subarr/coverage_engine.py:1273-1300 | The user layer, with its prefix fallback, answers before the machine layer. |
| `VerificationLookup.ClassifyFile` | src/subarr/coverage_engine.py:2205-2221 | Build, split and classify together give exactly: user row, else longest intent, else machine row. |
| `VerificationLookup.EffectiveDiffersFromGet` | src/subarr/coverage_engine.py:1273-1300 | The classifier's answer differs from `get` if and only if the file has a machine row that an intent overrules with another language, or whose language is not in lower case. |
| `VerificationLookup.IntentOverrulesMachine` | src/subarr/coverage_engine.py:1273-1300 | A concrete table and intent for which the two answers differ. |
| `ArenaService.ArenaService.constructor` | src/subarr/arena_service.py:90-129 | A new service holds nothing and all permits are free. |
| `ArenaService.ArenaService.CreateRun` | src/subarr/arena_service.py:131-153 | A run is stored under a fresh id as pending. |
| `ArenaService.ArenaService.StartRun` | src/subarr/arena_service.py:197-198 | One task per run is created. |
| `ArenaService.ArenaService.DeleteRun` | src/subarr/arena_service.py:167-176 | The row goes, the id is marked, and a live task is cancelled. |
| `ArenaService.ArenaService.Persist` | src/subarr/arena_service.py:178-189 | Write-through, unless the id is marked deleted. |
| `ArenaService.ArenaService.Suspend` | src/subarr/arena_service.py:320-342 | Suspending a task keeps its cancellation mark and changes no other task. |
| `ArenaService.ArenaService.CapacityProbed` | src/subarr/arena_service.py:237-277 | The capacity gate: enter, wait and announce once, or fail open after three unreadable probes. |
| `ArenaService.ArenaService.OnClip` | src/subarr/arena_service.py:326-334 | A clip begins: the total is set once and the clips before it are done. |
| `ArenaService.ArenaService.OnStep` | src/subarr/arena_service.py:336-339 | One finished transcription is counted and saved. |
| `ArenaService.ArenaService.Unwind` | src/subarr/arena_service.py:300-318 | The end of a task by any way out gives back the permit, the counter and its bookkeeping. |
| `ArenaService.ArenaService.ResumeTask` | src/subarr/arena_service.py:279-376 | One resumption between await points does exactly the modelled step. |
| `ArenaService.DeletedNeverComesBack` | src/subarr/arena_service.py:167-189 | In every interleaving, once `delete` has returned for a created run the store never holds that id again. |
| `ArenaService.BuriedForever` | src/subarr/arena_service.py:167-189 | The reason: an unstored id whose every possible writer sees the mark stays that way. |
| `ArenaService.MarkWithoutTaskStays` | src/subarr/arena_service.py:310-318 | The mark of a run whose task's body never began, or has ended, is never dropped. |
| `ArenaService.MarkGoesOnlyWithItsTask` | src/subarr/arena_service.py:167-189 | The mark of a deleted started run goes if and only if its task's body had begun and had not ended when the deletion came, and then at the task's next resumption. |
| `ArenaService.DueMarkCanGo` | src/subarr/arena_service.py:310-318 | That resumption is possible at any time, whatever the other tasks do. |
| `ArenaService.DeletedBeforeItBegan` | src/subarr/arena_service.py:167-198 | A concrete run: deleted before its task's first step, a sweep leaves its mark for good. |
| `ArenaService.DeletedAfterItEnded` | src/subarr/arena_service.py:167-176 | A concrete run: deleted after it ended, a sweep leaves its mark for good. |
| `ArenaService.FinalIsAbsorbing` | src/subarr/arena_service.py:279-318 | A stored done or error row never changes again; it can only be deleted. |
| `ArenaService.FinalInvRun` | src/subarr/arena_service.py:279-318 | In every reachable state no live task holds a final run, and a final row has no task left. |
| `ArenaService.SectionIsBounded` | src/subarr/arena_service.py:279-318 | In every reachable state the counter equals the number of tasks in the running section and is at most `max_concurrent`. |
| `ArenaService.CountsStep` | src/subarr/arena_service.py:279-318 | Every step keeps permits plus holders equal to `max_concurrent`. |
| `ArenaService.ReactStaysOnTrack` | src/subarr/arena.py:379-415 | Every resumption keeps the progress where the loop over clips and recipes is. |
| `ArenaService.DoneMeansComplete` | src/subarr/arena.py:379-397 | In every reachable state, a stored done row has done == total == clips x (recipes + 1) and every clip done. |
| `ArenaLife.RowsFollowTasks` | src/subarr/arena_service.py:178-318 | In every reachable state a task's run has the status of where it is (pending, queued, waiting for capacity, running) and shows the clips before the current one done, that one running and the rest pending; and write-through: the stored row of a live, undeleted run has that status and, before the final explanation, all of that progress. |
| `ArenaLife.GateLetsInExactly` | src/subarr/arena_service.py:237-277 | In every run, from the probes' outcomes alone: a sweep at the capacity gate enters the running section if and only if the newest probe found room or is the third unreadable one in a row; it fails if and only if the probe raised; otherwise it waits on, and its row says so from the first busy probe. |
| `ArenaLife.EndsExactly` | src/subarr/arena_service.py:279-318 | A resumed task ends exactly if it was cancelled after it began, its operation failed where failures propagate, or it was at its last await; its row is done in that last case without cancellation, else error, and untouched if the run is deleted; permit, counter and mark are given back. |
| `ArenaLife.StoppedNeverFinishes` | src/subarr/arena_service.py:167-212 | In every run, a sweep that is live when the service closes, or when it is itself deleted, is never stored as done afterwards. |
| `ArenaLife.UndisturbedSweepFinishes` | src/subarr/arena_service.py:279-376 | However other sweeps interleave with it, a sweep that nobody cancels and whose operations succeed counts down with each resumption, and with the last of them its row is done with every pass of every clip made. |
| `ArenaLife.StartedSweepFinishes` | src/subarr/arena.py:379-415 | So a started sweep of n clips ends done after exactly 4 + n x (recipes + 2) + 2 resumptions: the source pass, the recipes and the judge for each clip. |
| `ForcedSegment.AssembleWindows` | src/subarr/forced_segment.py:140-160 | The windows list 0..n-1 in order, every window of two or more fits the limit, and none could take the next utterance. |
| `ForcedSegment.GreedyStaysAhead` | src/subarr/forced_segment.py:140-160 | After any number of windows the greedy split has consumed at least as many utterances as any other. |
| `ForcedSegment.GreedyIsOptimal` | src/subarr/forced_segment.py:140-160 | For nondecreasing starts, no split into consecutive fitting runs uses fewer windows. |
| `ForcedSegment.FitsByLastEnd` | src/subarr/forced_segment.py:140-160 | With nondecreasing ends, a run fits exactly when its last end is within the window of its first start. |
| `ForcedSegment.ExpandWindowVerdicts` | src/subarr/forced_segment.py:179-191 | Utterances keep their order; each takes the flag of the last window that lists it, the default only if none does. |
| `ForcedSegment.OwnerInPartition` | src/subarr/forced_segment.py:179-191 | In an assembled partition that window is the utterance's own. |
| `ForcedSegment.Classify` | src/subarr/forced_segment_lid.py:62-81 | Every utterance gets its own window's verdict, in the original order, never the default; failures count as foreign. |
| `ForcedSegment.FlagExactly` | src/subarr/forced_segment_lid.py:62-80 | A window is foreign exactly if its audio could not be classified, or a language that does not spell the primary one, `en` or `eng` in any case was heard with at least the confidence and English with at most the probability asked for. |
| `ForcedSegment.MergeForeignSpans` | src/subarr/forced_segment.py:108-125 | The loop emits a span if and only if it runs from the least start to the greatest end of the foreign utterances linked to one of them by gaps of at most `merge_gap_s`, and is at least `min_span_s` long; the spans come in order, more than `merge_gap_s` apart. |
| `ForcedSegment.GroupsAreComponents` | src/subarr/forced_segment.py:108-125 | Two foreign utterances share a group if and only if a chain of gaps of at most `merge_gap_s` links them. |
| `ForcedSegment.GroupsAscendApart` | src/subarr/forced_segment.py:108-125 | Groups are sorted and separated by more than the gap. |
| `ForcedSegment.GroupSpansItsMembers` | src/subarr/forced_segment.py:108-125 | A group runs from the least start to the greatest end of its members. |
| `ForcedSegment.EmitsLongGroups` | src/subarr/forced_segment.py:108-125 | The emitted spans are exactly the groups of length at least `min_span_s`. |
| `ForcedSegment.MergeForgetsInputOrder` | src/subarr/forced_segment.py:108-125 | The merged spans depend on which utterances are foreign, not on their order. |
| `LogPump.PostCompleteLines` | src/subarr/docker_client.py:273-281 | The inner loop takes exactly the complete lines off the buffer, or a front part of them when the stop flag is seen. |
| `LogPump.Pump` | src/subarr/docker_client.py:260-290 | However the stream is cut into chunks, the worker posts exactly its newline-split lines, a nonempty remainder, and one end marker; when stopped, a front part and the marker. |
| `LogPump.LinesRebuild` | src/subarr/docker_client.py:273-289 | The lines and the remainder are the byte string cut at its newlines, with no newline left in any. |
| `LogPump.AllLinesRebuild` | src/subarr/docker_client.py:273-289 | The lines posted, each with a newline after it, are the stream, with one newline added if the last line lacked it; no line holds a newline. |
| `LogPump.LinesAppend` | src/subarr/docker_client.py:270-281 | Appending a chunk keeps the complete lines and continues from the remainder. |
| `LogPump.LineQueue.PutNowait` | src/subarr/docker_client.py:234-243 | The queue takes an item exactly when it is not full. |
| `LogPump.LineQueue.GetNowait` | src/subarr/docker_client.py:246-249 | The oldest item comes out. |
| `LogPump.LineQueue.Offer` | src/subarr/docker_client.py:240-252 | A line is dropped when the queue is full; the marker makes room for itself. |
| `LogPump.QueueIsBounded` | src/subarr/docker_client.py:234-252 | Under any schedule the queue never exceeds 1024. |
| `LogPump.MarkerArrivesLast` | src/subarr/docker_client.py:240-252 | The end marker is queued or taken exactly once everything is posted, and it is last. |
| `LogPump.FlowIsSubsequence` | src/subarr/docker_client.py:240-252 | What was taken and what is queued is at all times a subsequence of what was posted. |
| `LogPump.ConsumerSeesSubsequence` | src/subarr/docker_client.py:292-299 | A finished consumer saw a subsequence of the lines and then the marker. |
| `LogPump.ConsumerCannotHang` | src/subarr/docker_client.py:292-299 | Once everything is posted an unfinished consumer finds the marker in the queue. |
| `LogPump.KeepingUpLosesNothing` | src/subarr/docker_client.py:240-252 | A consumer that keeps the queue from filling loses nothing. |
| `LogPump.StreamedLines` | src/subarr/docker_client.py:235-299 | From bytes to reader: lines of the stream, in order, then the end; all of them if the consumer keeps up. |
| `CircuitBreaker.CircuitBreaker.constructor` | src/subarr/circuit_breaker.py:34-49 | A new breaker is closed without failures. |
| `CircuitBreaker.CircuitBreaker.Allow` | src/subarr/circuit_breaker.py:54-64 | Refuses only while open and within the cooldown; the first call after it half-opens the breaker. |
| `CircuitBreaker.CircuitBreaker.RecordSuccess` | src/subarr/circuit_breaker.py:66-72 | A success closes the breaker and clears the count. |
| `CircuitBreaker.CircuitBreaker.RecordFailure` | src/subarr/circuit_breaker.py:74-82 | A failure counts, and opens the breaker at the threshold or from half-open. |
| `CircuitBreaker.CircuitBreaker.OpenNow` | src/subarr/circuit_breaker.py:84-93 | Opening records the time. |
| `CircuitBreaker.PhaseTellsStreak` | src/subarr/circuit_breaker.py:54-93 | In every reachable state closed means fewer than `threshold` failures since the last success, and open or half-open has an opening time. |
| `CircuitBreaker.RefusedExactly` | src/subarr/circuit_breaker.py:54-93 | After any history an ask is refused if and only if the upstream failed at least `threshold` times in a row, the cooldown since the last failure is not over, and nobody has asked since that failure when it was. |
| `CircuitBreaker.HalfOpenAdmitsEverything` | src/subarr/circuit_breaker.py:54-64 | In every run, from the ask that half-opens the breaker to the next result every ask is let through; so one probe goes alone if and only if the client asks nothing more before it resolves. |
| `CircuitBreaker.HerdBreaksTheBound` | src/subarr/circuit_breaker.py:54-93 | From a fresh breaker: after the trip and one cooldown, n asks before any result are all let through, which is over the sequential bound if and only if n > 1. |
| `CircuitBreaker.ProbesAreSpaced` | src/subarr/circuit_breaker.py:54-93 | For a client that resolves each call before asking again, each allowed call after the trip waited out one more cooldown. |
| `CircuitBreaker.LastProbeAsked` | src/subarr/circuit_breaker.py:54-93 | The last allowed call was asked no earlier than its cooldowns after the trip. |
| `CircuitBreaker.LoadIsBounded` | src/subarr/circuit_breaker.py:54-93 | With an upstream that always fails, the calls allowed by time t are at most threshold + floor((t - t_trip) / cooldown). |
| `ArenaAggregate.CollectFiles` | src/subarr/arena_store.py:248-275 | The first loop files every run that has a result under its (language, path), in order of first sweep. |
| `ArenaAggregate.AddRows` | src/subarr/arena_store.py:268-275 | A sweep's labelled rows are added to the file's sums and counts; rows without a label are skipped. |
| `ArenaAggregate.TakeSweep` | src/subarr/arena_store.py:263-275 | A sweep counts once, votes for its winner unless it tied, and adds its rows. |
| `ArenaAggregate.FirstMax` | src/subarr/arena_store.py:281-284 | The first of the largest values, as `max` returns it. |
| `ArenaAggregate.CastBallots` | src/subarr/arena_store.py:293-298 | The file's mean goes to each recipe it scored and its win to its winner. |
| `ArenaAggregate.CollectBuckets` | src/subarr/arena_store.py:277-298 | The second loop rolls the files up into language buckets in order. |
| `ArenaAggregate.AggregateRunsByLanguage` | src/subarr/arena_store.py:238-317 | The three loops compute the declared report; `ArenaReport.ReportRowExactly`, `RecipesInOrder` and `LanguagesInOrder` say from the runs what stands in it. |
| `ArenaAggregate.CollectEntries` | src/subarr/arena_store.py:344-371 | Every recipe of every language but `und` is filed under its name. |
| `ArenaAggregate.NumberRows` | src/subarr/arena_store.py:402-409 | Eligible rows are numbered from 1 as they come, the others get no rank. |
| `ArenaAggregate.AggregateGlobalLeaderboard` | src/subarr/arena_store.py:320-409 | The loops compute the declared leaderboard; `ArenaReport.BoardRowExactly`, `BoardListsOnce` and the rank lemmas say what stands in it. |
| `Dicts.GroupAt` | src/subarr/arena_store.py:249-275 | The accumulation loop: each key holds the fold of its own values, whatever else was filed in between. |
| `Dicts.GroupConserves` | src/subarr/arena_store.py:277-298 | A measure that each step raises by a weight sums, over the keys, to the total weight. |
| `ArenaStandings.FileMeanIsAverage` | src/subarr/arena_store.py:277-280 | A file's mean for a recipe is the plain average of its scores over the file's sweeps. |
| `ArenaStandings.FileWinnerIsBest` | src/subarr/arena_store.py:281-286 | The file's winner won the most sweeps outright; without such sweeps it has the best mean; there is none exactly without either. |
| `ArenaStandings.RepeatKeepsBallots` | src/subarr/arena_store.py:238-247 | A file says the same about every recipe, and has the same winner, however often all its sweeps are repeated. |
| `ArenaStandings.CopiesKeepBuckets` | src/subarr/arena_store.py:238-298 | Copies of one file's runs change no bucket but for its sweep count. |
| `ArenaBoard.RecipeCountsFiles` | src/subarr/arena_store.py:287-298 | One file, one vote: a recipe's files, wins and sum of means in a language count each file once; wins <= files <= the bucket's files. |
| `ArenaBoard.WinsAreFiles` | src/subarr/arena_store.py:293-298 | A language's recipes together win at most as many files as it has. |
| `ArenaBoard.ReportConserves` | src/subarr/arena_store.py:300-317 | Over the report, files add up to the distinct (language, path) pairs and sweeps to the runs with a result. |
| `ArenaBoard.RanksHaveNoGaps` | src/subarr/arena_store.py:401-409 | Eligible recipes form a prefix ranked 1, 2, 3, ...; eligible means at least `min_languages` languages; the rest have no rank. |
| `ArenaBoard.RanksAreByMean` | src/subarr/arena_store.py:401-402 | Along the ranks the mean does not rise, and at equal means wins do not rise. |
| `ArenaReport.FileListsExactly` | src/subarr/arena_store.py:263-286 | A file lists a recipe exactly if a sweep of it scored the recipe under that label, and its mean there is the plain average of those scores. |
| `ArenaReport.WinnerExactly` | src/subarr/arena_store.py:281-286 | A file has a winner exactly if one of its sweeps was won outright or scored something, and the winner won the most sweeps, or without any has the best mean. |
| `ArenaReport.ReportRowExactly` | src/subarr/arena_store.py:238-317 | Of every row of the report, straight from the runs: its files are the distinct paths swept in the language and its sweeps the runs with a result; it lists exactly the recipes scored there, each with the files that scored it, the files it won and the average of its file means to the nearest hundredth; wins <= files <= the row's files. |
| `ArenaReport.RecipesInOrder` | src/subarr/arena_store.py:306-312 | Within a language the recipes come by wins and then by mean, equal ones as first met. |
| `ArenaReport.LanguagesInOrder` | src/subarr/arena_store.py:300-317 | One row for each language with a swept file and no other, by files and then by sweeps, equal ones as first met. |
| `ArenaReport.Round2Exactly` | src/subarr/arena_store.py:302 | Rounding gives the nearest hundredth, and of two equally near ones the even. |
| `ArenaReport.BoardRowExactly` | src/subarr/arena_store.py:344-400 | Of every row of the leaderboard: languages, files and wins add up the report's lines for the recipe outside `und`, the global mean is the average of those lines' means to the nearest hundredth, eligibility and confidence follow from the counts, and the lines are listed by files. |
| `ArenaReport.BoardListsOnce` | src/subarr/arena_store.py:344-371 | Exactly the recipes that the report lists outside `und` are on the board, each once. |
| `ArenaConfirm.BucketSweepsAreRuns` | src/subarr/arena_store.py:287-292 | A bucket's sweep count is the number of its language's runs with a result. |
| `ArenaConfirm.RepeatSweepsConfirm` | src/subarr/arena_store.py:238-317 | Appending copies of all of one file's runs changes no recipe's files, wins, mean or order in any language; only the file's language gains exactly those sweeps. |
| `ArenaPlaces.RepeatSweepsKeepStandings` | src/subarr/arena_store.py:320-400 | Nor any recipe's global mean, languages, files, wins, eligibility or confidence. |
| `ArenaPlaces.RepeatSweepsKeepPlaces` | src/subarr/arena_store.py:401-409 | The board reads the same place by place: a rank can change only between recipes with exactly equal figures. |
| `ArenaPlaces.LanguagesWeighOnce` | src/subarr/arena_store.py:354-384 | Each real language in which the recipe was scored weighs exactly once in its global mean, and `und` never. |
| `AutoQueue.Evaluate` | src/subarr/auto_queue.py:58-155 | The loop returns exactly the declared decisions: skips with their first reason, then the queued, then those over the cap. |
| `AutoQueue.EveryItemDecidedOnce` | src/subarr/auto_queue.py:58-155 | The decisions' items are a permutation of the input. |
| `AutoQueue.EligibleExactly` | src/subarr/auto_queue.py:86-136 | An item is eligible exactly if no path in flight or held back covers it (its file, its movie folder, or a file below its series folder that names the episode), it was probed, its settle window has passed to the second, and every rule lets it pass. |
| `AutoQueue.ReasonIsTrue` | src/subarr/auto_queue.py:86-136 | Whatever reason an item is skipped for is true of it; the minutes of a settling one are the time left, rounded up. |
| `AutoQueue.DecisionsAreHonest` | src/subarr/auto_queue.py:82-155 | The decisions queue nothing in dashboard mode and otherwise exactly the chosen items in order; every other item is skipped for its own reason or as one too many. |
| `AutoQueue.BestAreQueued` | src/subarr/auto_queue.py:137-155 | No item over the cap outscores a queued one, the queued ones come by falling score, and equal scores keep the report's order. |
| `AutoQueue.CapHolds` | src/subarr/auto_queue.py:137-155 | At most `max_per_run` items are queued if and only if that is not negative; the cap is filled before anything is cut; a negative cap cuts that many and queues the rest. |
| `AutoQueue.QueuedPassed` | src/subarr/auto_queue.py:86-136 | Whatever is queued is in the input and passed every test. |
| `AutoQueue.NoFileQueuedTwice` | src/subarr/auto_queue.py:169-189 | With queued paths fed back as in flight, no resolved file is queued in two rounds, even if rules and clock change. |
| `AutoQueue.RoundsRunDry` | src/subarr/auto_queue.py:169-189 | For every report in which verified rows have files, at most as many rounds queue anything as there are files not yet in flight, even if rules and clock change. |
| `AutoQueue.FilelessItemNeverRunsDry` | src/subarr/auto_queue.py:169-189 | The proviso is needed: a report of one eligible item without a file is queued in every round. |
| `AutoQueue.EligibleIsQueued` | src/subarr/auto_queue.py:86-155 | An eligible item that the cap reaches is queued, whatever earlier rounds queued. |
| `AutoQueue.BackfillIsComplete` | src/subarr/backfill.py:59-82 | The backlog is all eligible items exactly when they are at most 10,000,000. |
| `AutoQueue.BacklogExactly` | src/subarr/backfill.py:59-82 | Up to that size the backlog holds exactly the items that nothing covers, that are probed and that pass the rules, whatever their settle window and the run's cap. |
| `AutoQueue.AutoQueueWithinBackfill` | src/subarr/backfill.py:59-82 | Up to that size everything auto-queue queues is in the backlog. |
| `AutoQueue.BatchKeepsDepth` | src/subarr/backfill.py:38-56 | The batch is a front slice; it keeps the queue within its target exactly unless a negative batch size counts from the end past the headroom. |
| `AutoQueue.BatchSizeExactly` | src/subarr/backfill.py:50-56 | The batch is empty when off or without headroom, else as large as headroom, batch size and backlog allow; a negative batch size leaves that many out. |
| `ProbeIndex.ListUnderAncestors` | src/subarr/coverage_engine.py:2168-2173 | One path is listed under exactly the folders of two or more components above it, once each. |
| `ProbeIndex.BuildIndex` | src/subarr/coverage_engine.py:2165-2187 | For every folder, the index entry is exactly the probed (or failed) paths strictly below it, in store order. |
| `ProbeIndex.CoverageItem.constructor` | src/subarr/coverage_engine.py:149-155 | A new row is unprobed and shows no probe. |
| `ProbeIndex.CoverageItem.ApplyProbe` | src/subarr/coverage_engine.py:1159-1187 | A probe brings its own path and facts and marks the row verified. |
| `ProbeIndex.CoverageItem.AttachEpisode` | src/subarr/coverage_engine.py:1091-1156 | With any index that agrees with the filter, the row ends as the probes of the store itself say. |
| `ProbeIndex.CoverageItem.AttachExact` | src/subarr/coverage_engine.py:1112-1131 | By the row's own file: its first entry, else a failure of that file, else unchanged. |
| `ProbeIndex.CoverageItem.AttachNamed` | src/subarr/coverage_engine.py:1133-1156 | By the episode pattern: the first matching entry, else a matching failure, else unchanged. |
| `ProbeIndex.CoverageItem.AttachMovie` | src/subarr/coverage_engine.py:1190-1244 | The movie's first probe in its folder, of its own file when that is resolved. |
| `ProbeIndex.ResolvedEpisodeUsesItsOwnFile` | src/subarr/coverage_engine.py:1112-1131 | A row with a resolved file is verified if and only if that file has three or more components and was probed, and marked failed if and only if it failed and was not probed; never from another file. |
| `ProbeIndex.ResolvedMovieUsesItsOwnProbe` | src/subarr/coverage_engine.py:1217-1229 | A movie with a resolved file is verified only by that file's probe; it is marked failed when not verified and anything in its folder failed. |
| `ProbeIndex.UnresolvedEpisodeGoesByName` | src/subarr/coverage_engine.py:1133-1156 | Without a resolved file an episode takes the store's first probe below its folder whose file name holds the pattern; without one it is marked failed exactly if such a file failed. |
| `ProbeIndex.UnresolvedMovieGoesByFolder` | src/subarr/coverage_engine.py:1217-1229 | Without a resolved file a movie takes the store's first probe in its folder; without one any failure there marks it. |
| `ProbeIndex.VerifiedRowsHaveFiles` | src/subarr/coverage_engine.py:1159-1244 | A row becomes verified only by a probe of the store, and takes its path, which is never empty: the proviso of `AutoQueue.RoundsRunDry`. |
| `ProbeIndex.MovieBlamedForAnotherFile` | src/subarr/coverage_engine.py:1226-1229 | The exact condition under which a movie row is marked failed although only another file failed. |
| `ProbeIndex.MovieBlamedForItsExtra` | src/subarr/coverage_engine.py:1226-1229 | A concrete store in which a movie is marked failed for its extra. |
| `ConfigStore.ConfigStore.PreserveCorrupt` | src/subarr/config_store.py:49-61 | A corrupt file is moved aside intact, unless the rename fails. |
| `ConfigStore.ConfigStore.ReadFile` | src/subarr/config_store.py:64-100 | Reading tells absent, unreadable, corrupt and good files apart and never changes what the file stands for. |
| `ConfigStore.ConfigStore.Write` | src/subarr/config_store.py:129-137 | At every step the file is the complete old or the complete new contents. |
| `ConfigStore.ConfigStore.LoadOverridesResult` | src/subarr/config_store.py:103-126 | A load returns what the file stands for, or nothing when it cannot be read, says whether it could tell, and changes the file only by preserving a corrupt one. |
| `ConfigStore.ConfigStore.Run` | src/subarr/config_store.py:140-154 | One save or clear alone: a successful save leaves its value at its key, a successful clear none, and every other key as it was; a failed one changes no entry; an unreadable file is untouched; a corrupt one ends up aside if and only if it is readable and the rename goes through. |
| `ConfigStore.SavesLinearise` | src/subarr/config_store.py:103-154 | For every interleaving of saves, clears and loads under the lock, the file stands for the successful operations applied one after another, each once; `LastSaveWins` says what that means key by key. |
| `ConfigStore.LastSaveWins` | src/subarr/config_store.py:103-154 | In every interleaving the file's entry at any key is the value of the last logged save on it, none if a clear was logged later, and the entry at the start if no logged call was on it. |
| `ConfigStore.LogRespectsTime` | src/subarr/config_store.py:103-154 | That order keeps real time: a logged call that had finished before another began comes before it. |
| `ConfigStore.LoadSeesTheLog` | src/subarr/config_store.py:103-126 | In every interleaving, a load that can tell returns exactly what the operations logged before it add up to. |
| `ConfigStore.StepIsAtomic` | src/subarr/config_store.py:129-137 | A crash between any two steps leaves the old file, a corrupt file preserved aside, or the complete new file. |
| `ConfigStore.UnreadableIsNeverReplaced` | src/subarr/config_store.py:64-100 | A present but unreadable file is never replaced; the save fails. |
| `ConfigStore.CorruptFileIsGoneAfterRead` | src/subarr/config_store.py:49-100 | While renames succeed, no call past its read faces a corrupt file. |
| `ConfigStore.CorruptFileIsPreserved` | src/subarr/config_store.py:49-100 | While renames succeed, a corrupt file only ever leaves its place by being preserved. |
| `ConfigStore.CorruptFileLostExactly` | src/subarr/config_store.py:49-154 | In every interleaving, the file a call is about to replace is corrupt if and only if that call's own read found it corrupt and could not rename it aside. |
| `ConfigStore.CorruptFileLeaves` | src/subarr/config_store.py:49-154 | A corrupt file leaves its place in exactly two ways: preserved by a read whose rename succeeds, or replaced by a call whose own read had failed to rename it. |
| `ConfigStore.FailedRenameLosesCorruptFile` | src/subarr/config_store.py:49-61 | A concrete run in which a failed rename lets the save replace the corrupt file. |
| `SidecarNames.WrittenNameIsRecognised` | src/subarr/forced_segment.py:197-233 | The gate recognises the written name, and the old token order, if and only if the stem has no slash and the code is nonempty without dots or slashes. |
| `SidecarNames.WantedCodeIsRecognised` | src/subarr/forced_segment.py:227-233 | Names for every code the gate wants are recognised: for English also `eng`. |
| `SidecarNames.SlashedCodeIsNeverFound` | src/subarr/forced_segment.py:208-233 | No file name counts as the forced sidecar of a code with a slash. |
| `SidecarNames.GateExactly` | src/subarr/forced_segment.py:208-233 | The gate accepts a name exactly if after its last slash it is the stem, a tail and `.srt` in any case, and between the dots of the tail stand, in any order and case, the word `forced` and the code, or `eng` for English. |
| `SidecarNames.LangsInSidecars` | src/subarr/coverage_engine.py:690-736 | The covered languages are those of exactly the .srt names without a `forced` token. |
| `SidecarNames.CoveredExactly` | src/subarr/coverage_engine.py:690-736 | A language is covered exactly if some .srt name none of whose words is `forced` has it, or has none for `und`. |
| `SidecarNames.WrittenNameIsNoCoverage` | src/subarr/coverage_engine.py:690-736 | The written name is never counted as coverage, for any stem and code; the old form is not counted if and only if its code has no slash or still says `forced` after its last slash. |
| `SidecarNames.ForcedSidecarAddsNoCoverage` | src/subarr/coverage_engine.py:690-736 | Writing a forced sidecar leaves the covered languages as they were. |
| `SidecarNames.GateLooserExactly` | src/subarr/forced_segment.py:221-233 | Of the names the gate accepts, the coverage scan still counts exactly those whose only `forced` is glued to a nonempty stem that does not end in a dot or hyphen. |
| `SidecarNames.GluedForcedCounts` | src/subarr/forced_segment.py:221-233 | Such names exist for every one-word stem and code. |
| `SidecarNames.FreshNames` | src/subarr/completion_watcher.py:55-65 | The fresh names are exactly those with a readable time at or after the job's start less 300 seconds. |
| `SidecarNames.CandidatesExactly` | src/subarr/completion_watcher.py:127-137 | The names that compete are those that continue the stem with a dot and end in `.srt` in any case, and only the fresh ones if any is fresh. |
| `SidecarNames.ChoiceExactly` | src/subarr/completion_watcher.py:127-154 | The choice is the exact `<stem>.en.srt` if it competes; else an English name with the transcriber's mark, else one with the mark, else one that is not forced, else a forced one; the first by name among its equals. |
| `SidecarNames.ForcedIsLastResort` | src/subarr/completion_watcher.py:97-154 | There is a choice exactly when a sibling exists; it is a candidate; it is forced if and only if every candidate left after freshness narrowing is. |
| `SidecarNames.WrittenNameIsLastResort` | src/subarr/completion_watcher.py:139-154 | A forced sidecar subarr wrote is chosen only when no candidate is anything else. |
| `SidecarNames.WrittenNameRanksLast` | src/subarr/completion_watcher.py:142-146 | Both written forms compete and rank as forced, whatever the code. |
| `SidecarNames.ChoiceForgetsOrder` | src/subarr/completion_watcher.py:97-154 | The choice depends on which names there are, not on the order the directory lists them in. |

## Left out

- VerdictMoves.SweepSettlesExactly: where several orphans compete for one id target, or share a replacement file, the outcome depends on the order of the database scan; there only `LeftOpenWasContested` and `CalmSweepSettles` speak.
- Wall-clock spacing of refresh builds: follow-up builds start at once, so there is no general minimum interval to prove.
- `request_refresh` outside a running event loop, and cancellation of refresh tasks.
- The store call inside a build is one step together with the end of the build.
- SQLite, HTTP, Docker SDK, ffmpeg, voice activity detection and model inference: tables are maps, everything else is an input.
- `langs.normalize_lang`, `episode_key`, `series_folder` and the walk of a show folder are inputs (`World`, `Run.language`, and languages stored in normalised form); their regular expressions are not part of this model.
- How a canonical path resolves to a place on disk, links included, is an input (`World.resolve`), with one fact about it: a file that the walk lists at the place its path resolves to exists.
- Evidence timestamps, the report counters of `backfill_ids`, and an exception swallowed while following a replaced file.
- Floating point: times and scores are reals. The two-decimal rounding of scores is kept, rounding of spans to milliseconds is not.
- Text is ASCII: no Unicode case folding; decoding and `strip_ansi` are an arbitrary function of the line's bytes.
- Semaphore and lock fairness: waiters are woken in any order, which allows more runs than asyncio does.
- Event subscribers, the explainer and the judge's scores in a sweep, and `aclose` beyond cancelling.
- Boot-time `load`, `reconcile_interrupted`, pruning and the eager probe of a build (it is a kick like any other).
- `foreign_fraction` and `is_mostly_foreign`: one division and one comparison.
- `_sidecar_lang_token` is an arbitrary function of the name's tokens; `_upload_language` is not modelled.
- Audio label notes, embedded-track summaries and mismatch flags attached with a probe: one opaque probe value stands for them.
- Scoring weights, UI serialisation, logging, telemetry, authentication and configuration.
- ForcedSegment.GreedyIsOptimal: needs nondecreasing starts only, which the voice-activity detector delivers.
