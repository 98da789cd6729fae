# qooxdoo compiler: watcher, formatTime, JSDoc comments and the node loader, in Dafny

This project models four pieces of the qooxdoo compiler and proves what they
guarantee.

- **The watch/rebuild scheduler** `qx.tool.cli.Watch`:
  - which paths are handed to the file watcher;
  - the per-file debounce table `__debounceChanges`;
  - the classification of a changed file: config file, a dependency of an
    application, a resource or theme asset;
  - the single build in flight `__making`, with its coalescing make timer and
    the `__outOfDate` restart;
  - the rebuild of every application's `dependsOn` after a build.

  The scheduler has three layers:
  - `WatchPaths` holds the pure helpers.
  - `WatchMachine` is a state machine. Every asynchronous continuation of the
    source is one `Event`: the stats of the watched paths settling, a timer
    firing, a handler settling, `maker.make()` settling, the `setImmediate`
    restart, a loader template's `correctCase` resolving. The state after an event is a function of the state before it.
  - `Watch.Watch` is a class whose fields are the source's members. Each of its
    methods is proved to perform exactly the matching `Step` of the machine and
    to keep its invariant.

  The lemmas about `Step` are in `WatchLemmas`.
- **`qx.tool.utils.Utils.formatTime`** (`TimeFormat`): renders a duration in
  milliseconds. The model proves:
  - the rendering can be read back;
  - what its hour, minute and millisecond fields hold.
- **`qx.tool.compiler.jsdoc.Parser.parseComment`** (`JsDoc`): the line loop and
  its `@command` records, the trailing-comment and command patterns, the
  `@returns`/`@throw` aliases, body post-processing (parentheses, trimming) and
  grouping by name. `ParseComment` is the imperative loop. It is proved equal to
  the functional `Parse`, and the properties are proved of `Parse`.
- **The node loader's `decodeUris` and `importPackageData`** (`Loader`):
  - the expansion of compressed script URIs;
  - the merge of a package's resources, locales and translations into the
    global tables, held by the class `QxLoader`.

Things the watcher calls but does not own become parameters of the events:
- `path.resolve` is an opaque function `resolve`;
- the outcome of `fs.stat` plus `correctCase` is a `Stat`;
- whether `rm.getAsset` found an asset is `assetFound`;
- whether `asset.sync` succeeded is `syncOk`;
- whether `maker.make()` succeeded is `ok`, with `deps` giving each
  application's class dependencies.

## Model

| member | source | states |
|---|---|---|
| WatchPaths.LibraryDirs | source/class/qx/tool/cli/Watch.js:82-89 | the source, resource and theme directory of each library, three per library, in library order |
| WatchPaths.AddBootPaths | source/class/qx/tool/cli/Watch.js:91-102 | the earlier paths stay a prefix; every set boot path is listed; the paths added are set, come from the boot paths, were not already listed, and are distinct |
| WatchPaths.WatchDirsContents | source/class/qx/tool/cli/Watch.js:75-102 | the watched list starts with the config file name and "compile.js", then every library directory, then only set boot paths; every set boot path is in it |
| WatchPaths.ConfirmedFails | source/class/qx/tool/cli/Watch.js:104-113 | no watcher set exists exactly when some path's stat fails with an error other than ENOENT |
| WatchPaths.ConfirmedHolds | source/class/qx/tool/cli/Watch.js:104-123 | when stat succeeds, the watched set holds exactly the case-corrected names of the paths that exist; missing paths are dropped |
| WatchPaths.InvalidatesSome | source/class/qx/tool/cli/Watch.js:240-252 | the flag left by the loop over applications is set exactly when some application lists the path in `dependsOn`, or has a boot path whose resolved form prefixes the path |
| WatchPaths.DependencyFilesOf | source/class/qx/tool/cli/Watch.js:183-191 | an application's new `dependsOn` holds exactly one file per listed dependency |
| WatchPaths.DependencyFileOfClass | source/class/qx/tool/cli/Watch.js:188-189 | class `a.b.C` of a library maps to the resolved `<root>/<source>/a/b/C`, plus ".js" |
| WatchPaths.WatchDirs | source/class/qx/tool/cli/Watch.js:75-102 | the list `start` hands to `fs.stat`. `WatchDirsContents` states it: the config file name, "compile.js", every library directory, then each new set boot path |
| WatchPaths.Confirmed | source/class/qx/tool/cli/Watch.js:103-123 | the case-corrected paths whose stat succeeded, or nothing when a stat rejects. `ConfirmedFails` and `ConfirmedHolds` state both directions |
| WatchPaths.IsConfigFile | source/class/qx/tool/cli/Watch.js:235 | the `find` over the config file names is truthy: the path is listed and not empty. `ConfigFileShortCircuits` states what such a path does |
| WatchPaths.Invalidates | source/class/qx/tool/cli/Watch.js:240-252 | the `outOfDate` flag left by the loop over applications. `InvalidatesSome` states when it is set: some application depends on the path, or its resolved boot path prefixes it |
| WatchPaths.IsResource | source/class/qx/tool/cli/Watch.js:254-266 | some library's resolved resource or theme directory prefixes the path. `HandlerClassifies` states its effect |
| WatchPaths.NeedsSync | source/class/qx/tool/cli/Watch.js:268-273 | the handler awaits `asset.sync` exactly for a resource path with a known asset and an event other than `unlink`. `HandlerClassifies` and `SyncThenInvalidate` state both outcomes |
| WatchPaths.DependencyFile | source/class/qx/tool/cli/Watch.js:186-189 | the file of one class dependency. `DependencyFileOfClass` states its form |
| WatchPaths.DependencyFiles | source/class/qx/tool/cli/Watch.js:183-191 | the keys the loop over an application's dependencies adds to `dependsOn`. `DependencyFilesOf` states that a file is present exactly when some dependency maps to it |
| WatchMachine.Initial | source/class/qx/tool/cli/Watch.js:31-39 | a constructed watcher is not started, not ready, has no build and no debounce entry, and has fired nothing |
| WatchMachine.SetConfigFilenames | source/class/qx/tool/cli/Watch.js:61-67 | a missing list clears the config file names; otherwise the list holds every name resolved, in order; nothing else changes |
| WatchMachine.Start | source/class/qx/tool/cli/Watch.js:69-104 | `start`: throws when started, else one empty `dependsOn` per application and the stats under way. `StartOnlyOnce` states it |
| WatchMachine.WatcherCreated | source/class/qx/tool/cli/Watch.js:103-126 | the stats settle and the watcher is created or not. `StartWatches` states exactly when, on which paths, and that nothing else changes |
| WatchMachine.MakeRound | source/class/qx/tool/cli/Watch.js:156-162 | one round of `make()`: counters and `__outOfDate` reset and `maker.make()` started. `MakeTimerStartsBuild` and `RestartStartsRound` state it |
| WatchMachine.Make | source/class/qx/tool/cli/Watch.js:148-213 | `__make`. `MakeWhileBuilding` states that it does nothing with a build in flight; `MakeTimerStartsBuild` states that otherwise it fires `making` and starts a round |
| WatchMachine.ScheduleMake | source/class/qx/tool/cli/Watch.js:215-225 | `__scheduleMake`. `ScheduleMakeSingle` states that it arms the one timer exactly when no build is in flight |
| WatchMachine.Invalidate | source/class/qx/tool/cli/Watch.js:281-284 | the end of the handler when an application is out of date. `InvalidateMarks` states it |
| WatchMachine.Ready | source/class/qx/tool/cli/Watch.js:130-133 | the `ready` event sets `__watcherReady` and calls `__make`. `StopWhileStatting` states that it starts a build from idle, and `StepKeepsInv` that it keeps the invariant |
| WatchMachine.ClassCompiled | source/class/qx/tool/cli/Watch.js:77-79 | the `compiledClass` listener counts one class. `BuildInFlightKept` states that it touches neither the build nor the timer |
| WatchMachine.MakeTimerFires | source/class/qx/tool/cli/Watch.js:221-223 | the make timer fires and calls `__make`. `MakeTimerStartsBuild` states it |
| WatchMachine.FileChange | source/class/qx/tool/cli/Watch.js:227-316 | `__onFileChange` up to its return. `EarlyEventIgnored` states that it does nothing before `ready`; `FileEventDebounces` states the debounce entry it leaves |
| WatchMachine.HandleFileChange | source/class/qx/tool/cli/Watch.js:232-285 | `handleFileChange`. `ConfigFileShortCircuits`, `HandlerClassifies` and `HandlerKeepsSched` state its outcomes |
| WatchMachine.RunIt | source/class/qx/tool/cli/Watch.js:287-289 | `runIt`. `RunItTable` states that only its own entry's phase changes |
| WatchMachine.DebounceFires | source/class/qx/tool/cli/Watch.js:315 | the 150 ms timer runs `runIt`. `RunItTable` and `StepKeepsInv` state it |
| WatchMachine.HandlerSettles | source/class/qx/tool/cli/Watch.js:289-296 | the handler's promise settles. `SettleKeepsSched`, `SyncThenInvalidate`, `WedgedForever` and `RerunsForever` state its outcomes as written; `RestartRunsOnce` states the corrected one |
| WatchMachine.MakeSettles | source/class/qx/tool/cli/Watch.js:162-209 | `maker.make()` settles. `MakeDoneOutcomes` and `LinkingStarts` state the four outcomes |
| WatchMachine.Remake | source/class/qx/tool/cli/Watch.js:170-175 | the `setImmediate` restart. `RestartStartsRound` states it |
| WatchMachine.LoaderResolved | source/class/qx/tool/cli/Watch.js:192-200 | one loader template's `correctCase` resolves. `LinkedAfter` and `LinkingStep` state it |
| WatchMachine.Stop | source/class/qx/tool/cli/Watch.js:140-146 | `stop`. `StopWhileStatting` and `StoppingBehaviour` state its effect before and after the watcher exists |
| WatchMachine.Step | source/class/qx/tool/cli/Watch.js:61-317 | one asynchronous continuation of the source. `StepKeepsInv` states that every enabled one keeps the invariant, and the lemmas above state each one |
| WatchMachine.StepCorrected | source/class/qx/tool/cli/Watch.js:160-296 | `Step` with the corrected build ends and handler re-runs. `CorrectedKeepsInvalidation` and `RestartRunsOnce` state what the correction buys |
| WatchLemmas.InitialInv | source/class/qx/tool/cli/Watch.js:31-39 | the constructed state satisfies the invariant |
| WatchLemmas.StepKeepsInv | source/class/qx/tool/cli/Watch.js:61-317 | every event keeps the invariant. Once started there is one `dependsOn` per application. The watcher exists only once started. Nothing is built, scheduled or debounced before the watcher is ready. The make timer is armed only while no build is in flight. A linking build waits for a non-empty set of applications that exist. |
| WatchLemmas.HandlerKeepsSched | source/class/qx/tool/cli/Watch.js:232-285 | a handler run keeps the invariant and leaves the build, `dependsOn` and `__stopping` alone. It fires at most `configChanged`. It arms the make timer only when no build is in flight. |
| WatchLemmas.SettleKeepsSched | source/class/qx/tool/cli/Watch.js:287-297 | a handler that settles, and runs again when `restart` is set, has the same effect on the scheduler as a handler run |
| WatchLemmas.StartOnlyOnce | source/class/qx/tool/cli/Watch.js:69-104 | the first `start` marks the watcher started, with one empty `dependsOn` per application and the stat of exactly `WatchDirs` under way; a later one throws and changes nothing |
| WatchLemmas.StartWatches | source/class/qx/tool/cli/Watch.js:103-124 | once the stats settle, the watcher is created exactly when no stat failed with anything but ENOENT, and it watches exactly the existing, case-corrected paths; nothing else changes |
| WatchLemmas.StopWhileStatting | source/class/qx/tool/cli/Watch.js:123-146 | a `stop` while the stats are pending sets `__stopping` and closes nothing; the watcher is still created, stays open, and its `ready` event still starts a build |
| WatchLemmas.MakeWhileBuilding | source/class/qx/tool/cli/Watch.js:148-151 | `__make` with a build in flight changes nothing: no second build starts and no `making` fires |
| WatchLemmas.MakeTimerStartsBuild | source/class/qx/tool/cli/Watch.js:152-162 | the make timer fires only while idle. It fires `making` and starts a build with the counters and `__outOfDate` reset. |
| WatchLemmas.ScheduleMakeSingle | source/class/qx/tool/cli/Watch.js:215-225 | `__scheduleMake` does nothing while a build is in flight, and otherwise (re)arms the one make timer |
| WatchLemmas.BuildInFlightKept | source/class/qx/tool/cli/Watch.js:148-151 | while a build is in flight, only its own continuations change it. No other event arms the timer or fires anything but `configChanged`. |
| WatchLemmas.InvalidateMarks | source/class/qx/tool/cli/Watch.js:281-284 | an invalidation sets `__outOfDate`. It arms the timer exactly when no build is in flight, or keeps an armed timer. |
| WatchLemmas.EarlyEventIgnored | source/class/qx/tool/cli/Watch.js:227-230 | a file event before the watcher is ready changes nothing |
| WatchLemmas.FileEventDebounces | source/class/qx/tool/cli/Watch.js:299-316 | a file event records its type on the path's entry and leaves every other entry alone. While the entry's handler is in flight, the event only sets `restart`. Otherwise it (re)arms the entry's one timer, with its own type. |
| WatchLemmas.RunItTable | source/class/qx/tool/cli/Watch.js:287-289 | a handler run changes only its own entry's phase, which becomes neither armed nor wedged |
| WatchLemmas.RestartSticky | source/class/qx/tool/cli/Watch.js:287-297 | once `restart` is set, no event clears it or deletes the entry |
| WatchLemmas.DeletedOnlyWithoutRestart | source/class/qx/tool/cli/Watch.js:290-295 | an entry disappears only when its own handler completes with `restart` unset and no failed sync |
| WatchLemmas.WedgedForever | source/class/qx/tool/cli/Watch.js:272-296 | an entry whose `asset.sync` rejected stays, wedged, whatever happens next |
| WatchLemmas.ConfigFileShortCircuits | source/class/qx/tool/cli/Watch.js:235-238 | a config file fires `configChanged` and does nothing else |
| WatchLemmas.HandlerClassifies | source/class/qx/tool/cli/Watch.js:240-284 | any other path invalidates exactly when some application depends on it, or it lies under that application's boot path. With an asset to sync, the invalidation waits for the sync; without one it sets `__outOfDate` and schedules a make. |
| WatchLemmas.SyncThenInvalidate | source/class/qx/tool/cli/Watch.js:268-284 | after a successful sync, the postponed invalidation is applied and the entry is deleted |
| WatchLemmas.MakeDoneOutcomes | source/class/qx/tool/cli/Watch.js:162-209 | the four ways a build's `maker.make()` settles. A failure fires `made`. Stopping fires nothing. `__outOfDate` restarts the build. Otherwise every `dependsOn` is rebuilt from its dependencies and the loader templates are awaited. |
| WatchLemmas.RestartStartsRound | source/class/qx/tool/cli/Watch.js:169-177 | the restart fires `remaking` and starts a fresh round, with counters and `__outOfDate` reset |
| WatchLemmas.LinkingStarts | source/class/qx/tool/cli/Watch.js:179-195 | a successful build waits for every loader template, with `dependsOn` holding exactly the dependency files |
| WatchLemmas.LinkedAfter | source/class/qx/tool/cli/Watch.js:192-194 | a resolved template is added to its own application's `dependsOn` only |
| WatchLemmas.LinkingStep | source/class/qx/tool/cli/Watch.js:192-200 | the last template to resolve fires `made`, ends the build and leaves each `dependsOn` as its dependency files plus its template; an earlier one fires nothing |
| WatchLemmas.DependsOnOnlyByBuild | source/class/qx/tool/cli/Watch.js:182-194 | only a build's own continuations change `dependsOn` |
| WatchLemmas.StoppingBehaviour | source/class/qx/tool/cli/Watch.js:140-167 | while stopping, a successful build fires nothing; a make timer still pending at `stop` still starts a build |
| WatchLemmas.LostAfterFailedBuild | source/class/qx/tool/cli/Watch.js:202-209 | as written: a change seen while `maker.make()` fails leaves `__outOfDate` set with no build and no timer |
| WatchLemmas.LostWhileLinking | source/class/qx/tool/cli/Watch.js:196-204 | as written: a change seen while the loader templates are awaited is lost the same way |
| WatchLemmas.CorrectedKeepsInvalidation | source/class/qx/tool/cli/Watch.js:160-209 | with rescheduling completions every event keeps the invariant. A pending invalidation always has a build in flight or an armed timer, unless stopping. |
| WatchLemmas.RerunsForever | source/class/qx/tool/cli/Watch.js:287-297 | as written: a handler marked for restart is running again after it settles, and is still marked |
| WatchLemmas.RestartRunsOnce | source/class/qx/tool/cli/Watch.js:287-310 | with `restart` cleared on re-run, a marked handler runs exactly once more. Its next completion deletes the entry, unless the re-run's sync fails. |
| Watch.Watch.constructor | source/class/qx/tool/cli/Watch.js:31-39 | the new watcher is the machine's initial state |
| Watch.Watch.SetConfigFilenames | source/class/qx/tool/cli/Watch.js:61-67 | performs the `SetConfig` step and keeps the invariant |
| Watch.Watch.Start | source/class/qx/tool/cli/Watch.js:69-106 | throws exactly when started before; performs the `StartWatching` step and keeps the invariant |
| Watch.Watch.OnStatsSettled | source/class/qx/tool/cli/Watch.js:104-126 | performs the `StatsSettled` step, creating the watcher on the confirmed paths unless a stat rejected, and keeps the invariant |
| Watch.Watch.CollectDirs | source/class/qx/tool/cli/Watch.js:75-102 | computes the path list `WatchDirs` and one empty `dependsOn` per application |
| Watch.Watch.CollectLibraryDirs | source/class/qx/tool/cli/Watch.js:80-89 | the two config files followed by `LibraryDirs` |
| Watch.Watch.CollectApplications | source/class/qx/tool/cli/Watch.js:90-102 | the boot paths added by `AddBootPaths`, and one empty `dependsOn` per application |
| Watch.Watch.ConfirmDirs | source/class/qx/tool/cli/Watch.js:103-123 | the set of confirmed paths is `Confirmed` |
| Watch.Watch.Make | source/class/qx/tool/cli/Watch.js:148-161 | performs `WatchMachine.Make` on the scheduler and leaves the debounce table alone |
| Watch.Watch.ScheduleMake | source/class/qx/tool/cli/Watch.js:215-225 | performs `WatchMachine.ScheduleMake` and leaves the debounce table alone |
| Watch.Watch.OnReady | source/class/qx/tool/cli/Watch.js:130-133 | performs the `WatcherReady` step and keeps the invariant |
| Watch.Watch.OnCompiledClass | source/class/qx/tool/cli/Watch.js:77-79 | performs the `CompiledClass` step and keeps the invariant |
| Watch.Watch.OnFileChange | source/class/qx/tool/cli/Watch.js:227-317 | performs the `FileEvent` step and keeps the invariant |
| Watch.Watch.HandleFileChange | source/class/qx/tool/cli/Watch.js:232-285 | the scheduler and the entry's phase are those of `WatchMachine.HandleFileChange`; the debounce table is left alone |
| Watch.Watch.RunIt | source/class/qx/tool/cli/Watch.js:287-289 | performs `WatchMachine.RunIt` |
| Watch.Watch.OnDebounceTimer | source/class/qx/tool/cli/Watch.js:315 | performs the `DebounceTimer` step and keeps the invariant |
| Watch.Watch.OnHandlerSettled | source/class/qx/tool/cli/Watch.js:273-296 | performs the `HandlerDone` step and keeps the invariant |
| Watch.Watch.OnMakeTimer | source/class/qx/tool/cli/Watch.js:221-223 | performs the `MakeTimer` step and keeps the invariant |
| Watch.Watch.OnMakeSettled | source/class/qx/tool/cli/Watch.js:162-209 | performs the `MakeDone` step and keeps the invariant |
| Watch.Watch.DependsOnFor | source/class/qx/tool/cli/Watch.js:182-191 | each application's new `dependsOn` is `DependencyFiles` of its dependencies |
| Watch.Watch.OnRestart | source/class/qx/tool/cli/Watch.js:170-175 | performs the `RestartMake` step and keeps the invariant |
| Watch.Watch.OnLoaderCorrected | source/class/qx/tool/cli/Watch.js:192-200 | performs the `LoaderCorrected` step and keeps the invariant |
| Watch.Watch.Stop | source/class/qx/tool/cli/Watch.js:140-146 | performs the `StopWatching` step and keeps the invariant |
| TimeFormat.Pad2 | source/class/qx/tool/utils/Utils.js:80 | the hour and minute fields have at least two digits |
| TimeFormat.Pad3 | source/class/qx/tool/utils/Utils.js:90 | the millisecond field has exactly three digits |
| TimeFormat.Pad2Value | source/class/qx/tool/utils/Utils.js:83 | the padded digits still denote the number |
| TimeFormat.Pad3Value | source/class/qx/tool/utils/Utils.js:90 | the padded digits still denote the number |
| TimeFormat.FormatTime | source/class/qx/tool/utils/Utils.js:72-92 | `formatTime` as written. `FormatTimeDecodes`, `FormatTimeMillis`, `FormatTimeMinutes`, `FormatTimeHours`, `FormatTimeUnderAMinute` and `FormatTimeExample` state it |
| TimeFormat.Head | source/class/qx/tool/utils/Utils.js:78-84 | the hour and minute fields. `HeadFacts` states them |
| TimeFormat.SecondsField | source/class/qx/tool/utils/Utils.js:85-89 | the seconds field. `SecondsFieldValue` states its value and `SecondsFieldUnpadded` its padding |
| TimeFormat.LastPart | source/class/qx/tool/utils/Utils.js:85-90 | "<seconds>.<mmm>s". `FormatTimeMillis` and `FormatTimeDecodes` state it |
| TimeFormat.HeadFacts | source/class/qx/tool/utils/Utils.js:79-84 | the head ends in a space; it holds "h" exactly when there are hours, and "m" exactly when there are hours or minutes |
| TimeFormat.FormatTimeDecodes | source/class/qx/tool/utils/Utils.js:72-92 | reading back the last field "<seconds>.<mmm>s" gives the duration: the rendering loses nothing |
| TimeFormat.FormatTimeMillis | source/class/qx/tool/utils/Utils.js:76-90 | the rendering ends in "." followed by three digits for `millisec % 1000` and then "s" |
| TimeFormat.FormatTimeMinutes | source/class/qx/tool/utils/Utils.js:74-83 | a minute field appears exactly from one minute on, and it holds the total minutes `millisec / 60000` |
| TimeFormat.FormatTimeHours | source/class/qx/tool/utils/Utils.js:75-80 | an hour field appears exactly from one hour on, and it leads with the total hours |
| TimeFormat.FormatTimeUnderAMinute | source/class/qx/tool/utils/Utils.js:85-90 | under a minute the rendering is just "<seconds>.<mmm>s" |
| TimeFormat.SecondsFieldUnpadded | source/class/qx/tool/utils/Utils.js:85-89 | since the seconds are a total, the `"0" + seconds` branch is never taken |
| TimeFormat.FormatTimeExample | source/class/qx/tool/utils/Utils.js:72-92 | 3661000 ms renders as "01h 61m 3661.000s" |
| TimeFormat.SecondsFieldValue | source/class/qx/tool/utils/Utils.js:85-89 | whatever padding the seconds field gets, its digits denote the seconds |
| TimeFormat.FormatTimeIntendedDecodes | source/class/qx/tool/utils/Utils.js:66-92 | the intended rendering's last field reads back as the time within the current minute |
| TimeFormat.FormatTimeIntendedExample | source/class/qx/tool/utils/Utils.js:67 | 3661000 ms renders, as intended, as "01h 01m 01.000s" |
| TimeFormat.FormatTimeIntended | source/class/qx/tool/utils/Utils.js:66-92 | `formatTime` with seconds and minutes reduced as the doc comment shows. `FormatTimeIntendedDecodes` and `FormatTimeIntendedExample` state it |
| JsDoc.ParseComment | source/class/qx/tool/compiler/jsdoc/Parser.js:43-119 | the loops compute `Parse`, the functional reading of the comment |
| JsDoc.Parse | source/class/qx/tool/compiler/jsdoc/Parser.js:43-119 | `parseComment` as one function. `DescriptionFirst`, `NoRawAliases` and `GroupIsFilter` state the result, and `ParseComment` computes it |
| JsDoc.ParseLine | source/class/qx/tool/compiler/jsdoc/Parser.js:58-94 | one pass of the line loop is one `Step` on its classified line |
| JsDoc.FinishRecord | source/class/qx/tool/compiler/jsdoc/Parser.js:97-111 | one pass of the record loop is `Finalize` |
| JsDoc.LastCommentBefore | source/class/qx/tool/compiler/jsdoc/Parser.js:65 | the greedy match of the trailing-comment pattern: the last position where it matches, or none |
| JsDoc.StripComment | source/class/qx/tool/compiler/jsdoc/Parser.js:64-68 | the line is cut where the greedy comment match starts and trimmed on the right; without a match it is unchanged |
| JsDoc.UrlKept | source/class/qx/tool/compiler/jsdoc/Parser.js:64-68 | a line whose every "//" follows a ':', as in URLs, is kept whole |
| JsDoc.CommandMatch | source/class/qx/tool/compiler/jsdoc/Parser.js:71 | a match is "@" plus a maximal run of word characters, then a body without line terminators, which together are the left-trimmed line |
| JsDoc.CommandMatchComplete | source/class/qx/tool/compiler/jsdoc/Parser.js:71-81 | every line shaped as the pattern demands yields exactly that name and body |
| JsDoc.Normalize | source/class/qx/tool/compiler/jsdoc/Parser.js:83-89 | "@returns" becomes "@return" and "@throw" becomes "@throws"; other names are kept |
| JsDoc.AppendToLast | source/class/qx/tool/compiler/jsdoc/Parser.js:72-77 | a continuation line changes only the current record's body, which becomes the text after "\n" when the body was non-empty, and the text alone otherwise |
| JsDoc.Classify | source/class/qx/tool/compiler/jsdoc/Parser.js:59-82 | a line is skipped exactly when it is blank after `trimRight`; command names are well formed |
| JsDoc.Step | source/class/qx/tool/compiler/jsdoc/Parser.js:59-93 | a blank line changes nothing; a command line appends exactly its record; a text line is appended to the current body; the first record stays first |
| JsDoc.Scan | source/class/qx/tool/compiler/jsdoc/Parser.js:44-45 | the records always start with the "@description" record |
| JsDoc.ScanNames | source/class/qx/tool/compiler/jsdoc/Parser.js:71-89 | every record name starts with "@" and is never "@returns" or "@throw" |
| JsDoc.ContinuationBody | source/class/qx/tool/compiler/jsdoc/Parser.js:72-77 | without command lines, the description body is the non-blank text lines joined with "\n" |
| JsDoc.ParenSpan | source/class/qx/tool/compiler/jsdoc/Parser.js:106 | a match of the parenthesis pattern spans a "(" and a later ")" of the body |
| JsDoc.StripParens | source/class/qx/tool/compiler/jsdoc/Parser.js:105-109 | `m ? m[1] : body` for the parenthesis pattern. `ParensStripped` and `NoParensTrimmed` state it |
| JsDoc.ParensStripped | source/class/qx/tool/compiler/jsdoc/Parser.js:105-110 | a body that is a parenthesised text with only whitespace around it, as in "@cmd (x)", is that text, trimmed |
| JsDoc.NoParensTrimmed | source/class/qx/tool/compiler/jsdoc/Parser.js:105-110 | a body without "(" is only trimmed |
| JsDoc.Finalize | source/class/qx/tool/compiler/jsdoc/Parser.js:97-111 | post-processing keeps the record's name. A description body becomes the converter's HTML, or stays as it is when the converter throws. Any other body loses its parentheses and is trimmed |
| JsDoc.FinalizeTrimmed | source/class/qx/tool/compiler/jsdoc/Parser.js:110 | every body except a description's ends with no whitespace at either end |
| JsDoc.FinalizeAll | source/class/qx/tool/compiler/jsdoc/Parser.js:97-111 | every record is post-processed, in place |
| JsDoc.File | source/class/qx/tool/compiler/jsdoc/Parser.js:112-116 | a record is appended to its name's group, which is created when missing; other groups are untouched |
| JsDoc.Group | source/class/qx/tool/compiler/jsdoc/Parser.js:112-117 | the filing loop. `GroupIsFilter` states that each key's group is `Filter` of the records |
| JsDoc.Filter | source/class/qx/tool/compiler/jsdoc/Parser.js:112-117 | the records that carry one name, in order: the reference reading of a group that `GroupIsFilter` ties `Group` to |
| JsDoc.GroupIsFilter | source/class/qx/tool/compiler/jsdoc/Parser.js:112-117 | a name is a key exactly when some record carries it, and its group holds those records in order |
| JsDoc.DescriptionFirst | source/class/qx/tool/compiler/jsdoc/Parser.js:44-117 | the result always has an "@description" group, headed by the initial description record |
| JsDoc.NoRawAliases | source/class/qx/tool/compiler/jsdoc/Parser.js:84-116 | "@returns" and "@throw" are never keys of the result |
| Loader.EffectivePath | source/resource/qx/tool/cli/templates/loader/loader-node.tmpl.js:122-123 | a missing or empty path name falls back to `transpiledPath` |
| Loader.DecodeAll | source/resource/qx/tool/cli/templates/loader/loader-node.tmpl.js:125-142 | no more URIs come out than go in, and each starts with the prefix |
| Loader.QxLoader.DecodeUris | source/resource/qx/tool/cli/templates/loader/loader-node.tmpl.js:121-143 | the loop computes `DecodeAll` under the effective path |
| Loader.DecodeAllAppend | source/resource/qx/tool/cli/templates/loader/loader-node.tmpl.js:126-141 | decoding keeps input order: a concatenation decodes to the concatenation of the decodings |
| Loader.DecodeAllSingle | source/resource/qx/tool/cli/templates/loader/loader-node.tmpl.js:127-140 | one entry yields the prefixed decoding, or nothing when it is skipped |
| Loader.DecodeOneDropped | source/resource/qx/tool/cli/templates/loader/loader-node.tmpl.js:129-135 | an entry is dropped exactly when its first ':'-segment is `__external__` and the library rule does not apply |
| Loader.LibraryUri | source/resource/qx/tool/cli/templates/loader/loader-node.tmpl.js:129-133 | "lib:rest" for a known library becomes "./rest" for `__out__` and "<path>/rest" otherwise |
| Loader.DecodeOne | source/resource/qx/tool/cli/templates/loader/loader-node.tmpl.js:127-138 | one compressed URI, or nothing when skipped. `DecodeOneDropped`, `LibraryUri`, `PlainUri` and `NoColonUri` state each branch |
| Loader.PlainUri | source/resource/qx/tool/cli/templates/loader/loader-node.tmpl.js:129-137 | a URI that is not "lib:rest" for a known library and does not start with an `__external__` segment is kept unchanged, whatever ':' it holds |
| Loader.NoColonUri | source/resource/qx/tool/cli/templates/loader/loader-node.tmpl.js:136-137 | a URI without ':' is kept unchanged, unless it is `__external__` |
| Loader.QxLoader.ImportPackageData | source/resource/qx/tool/cli/templates/loader/loader-node.tmpl.js:172-203 | each present field is merged into its table, and absent ones change nothing. The callback, when given, receives the data map. |
| Loader.OverwriteInPlace | source/resource/qx/tool/cli/templates/loader/loader-node.tmpl.js:173-177 | the key-by-key loop computes `table + incoming` |
| Loader.OverwriteEntries | source/resource/qx/tool/cli/templates/loader/loader-node.tmpl.js:175-176 | incoming keys take the incoming value; every other key keeps its own |
| Loader.Overwrite | source/resource/qx/tool/cli/templates/loader/loader-node.tmpl.js:173-177 | `for (k in incoming) table[k] = incoming[k]`. `OverwriteEntries` states each key |
| Loader.MergeInPlace | source/resource/qx/tool/cli/templates/loader/loader-node.tmpl.js:178-199 | the language loop computes `MergeCatalogs` |
| Loader.MergeCatalogsEntries | source/resource/qx/tool/cli/templates/loader/loader-node.tmpl.js:181-187 | a new language is installed whole, and an existing one is merged with incoming keys winning; other languages are untouched |
| Loader.MergeCatalogsIdempotent | source/resource/qx/tool/cli/templates/loader/loader-node.tmpl.js:178-199 | importing the same catalogs twice equals importing them once |
| Loader.MergeCatalogs | source/resource/qx/tool/cli/templates/loader/loader-node.tmpl.js:178-199 | merging the locales or translations. `MergeCatalogsEntries` and `MergeCatalogsIdempotent` state it |
| Loader.ImportOptional | source/resource/qx/tool/cli/templates/loader/loader-node.tmpl.js:173-177 | a present `resources` field is merged; a missing one changes nothing. `QxLoader.ImportPackageData` performs it in place, and `OverwriteEntries` or `MergeCatalogsEntries` state the merge |
| Loader.ImportCatalogs | source/resource/qx/tool/cli/templates/loader/loader-node.tmpl.js:178-199 | a present `locales` or `translations` field is merged; a missing one changes nothing. `QxLoader.ImportPackageData` performs it in place, and `OverwriteEntries` or `MergeCatalogsEntries` state the merge |

## Left out

- File watching, `fs.stat`, timers, `setImmediate` and promises are not run. Each continuation they would trigger is an `Event` of `WatchMachine`. Its outcome comes in as a parameter (`Stat`, `assetFound`, `syncOk`, `ok`, `deps`, the corrected template name). Each event is enabled in the states where the source could run that continuation.
- The 150 ms and 500 ms delays are not modelled. Only whether a timer is pending is recorded. A cleared or stale `__timerId` is the flag `timerArmed`.
- Console output, `startTime`/`endTime` and the `formatTime` call for the build report are not modelled: they only print. The watcher's `error` handler only prints and is left out.
- `__runningPromise` and `__onStop` are reduced to the flag `started`. The `await` of the build in flight in `stop` is not modelled.
- A `stop` before the stats settle reaches `this._watcher.close()` with no watcher. The source's `stop` promise then rejects with a TypeError; the model keeps only the `__stopping` flag it set first, and `WatchLemmas.StopWhileStatting` shows the watcher that is created afterwards is never closed.
- `path.resolve` is an opaque function. `path.join(a, b)` is `a + "/" + b`; its normalisation of "..", "." and repeated separators is not modelled.
- WatchPaths.DependencyFile: the multi-argument `path.resolve(root, source, ...parts)` is modelled as `resolve` of the segments joined with "/". The two differ when a later segment is absolute, which then replaces everything before it.
- A dependency whose class or library the database cannot find makes `maker.make()`'s continuation throw, and the build then fails. The model does not cover this: `deps` always resolves.
- A `correctCase` promise that rejects is not modelled. Every loader template and watched path is taken to resolve.
- `asset.sync` and the syncs of the assets that depend on it are one outcome, `syncOk`. Whether `rm.getAsset` found an asset is `assetFound`; its lazy creation is not modelled.
- An empty `bootPath` stands for every falsy boot path (missing, `null`, ""). A config file name matches only when the changed path is not empty, as `Array.find` returns the element itself.
- The `qx.tool.cli.Watch` events are recorded as the list `notes`; listeners are not modelled.
- The regular-expression pre-pass of `parseComment` is taken as already applied to the comment. This covers the `@code@` sections and the leading `*` rewriting (Parser.js lines 47-55).
- The markdown converter of `parseComment` is the parameter `makeHtml`. A conversion that throws is `None`, which keeps the body. The error message is not modelled.
- `parseComment` groups records in a plain object. Every record name starts with "@", so no name collides with an inherited property, and the map is exact.
- In `decodeUris`, `uri[0] in libs` and `!qxlocs[lang]` also see properties inherited from `Object.prototype`, such as "toString". The model uses set and map membership, which does not.
- The `%{DecodeUrisPlug}` template slot of the loader is taken to be empty.
- The `for ... in` loops of `importPackageData` visit keys in an unspecified order. The model proves the result does not depend on it.
- `importPackageData`'s callback is not called. The method returns the data map the callback would receive.
- The aliasing of the per-language tables is not modelled. A new language's table is installed by reference and updated in place later, which the model does not track. The model treats the tables as values.
- `formatTime` takes a non-negative whole number of milliseconds. JavaScript's fractional and negative numbers are not modelled.
- The `Watch` class methods perform the machine's `Step`, the source as written. The corrected completions of the findings below are proved on the machine (`StepCorrected`) and are not a second class.

## Findings

| source | as written | input that shows it | evidently intended | confidence | as-written member | corrected member |
|---|---|---|---|---|---|---|
| source/class/qx/tool/utils/Utils.js:73-89 | minutes and seconds are total counts, not reduced modulo 60 | 3661000 ms renders as "01h 61m 3661.000s" | "01h 01m 01.000s", the form of the doc comment's example "1h 23m 45.678s" | high, not executed | TimeFormat.FormatTimeExample | TimeFormat.FormatTimeIntendedExample |
| source/class/qx/tool/cli/Watch.js:196-209 | a change seen while a build is in flight sets `__outOfDate` and schedules nothing. The build picks the flag up only when `maker.make()` succeeds and before the loader templates are awaited. After a failed build, or during the template wait, the flag stays set with no build and no timer. | a dependency changes while `maker.make()` rejects, or while a loader template's `correctCase` is pending | the build's end schedules a make while `__outOfDate` is set | high, not executed | WatchLemmas.LostAfterFailedBuild | WatchLemmas.CorrectedKeepsInvalidation |
| source/class/qx/tool/cli/Watch.js:287-310 | `restart` is set on an entry and never cleared, so every completion re-runs the handler | a file changes again while its handler is running: the handler then runs without end, and the entry is never deleted | `restart` cleared when the handler runs again | high, not executed | WatchLemmas.RerunsForever | WatchLemmas.RestartRunsOnce |
