/**
 * The scheduler of `qx.tool.cli.Watch` as a state machine.
 *
 * Every asynchronous continuation of the source (a timer firing, a file
 * handler settling, `maker.make()` settling, the `setImmediate` restart, a
 * `correctCase` of a loader template resolving) is one event; the state
 * after the event is a function of the state before it. Outcomes of code
 * the watcher calls but does not own (`fs.stat`, `maker.make()`,
 * `rm.getAsset`, `asset.sync`, `correctCase`) are parameters of the events.
 */
module WatchMachine {
  import opened Wrappers
  import opened Strings
  import opened WatchPaths

  /** Where the handler of one debounce entry is. */
  datatype Phase =
    | Armed                      // the 150 ms timer is pending, no handler has run
    | Running                    // the handler's body is done, its completion callback is pending
    | Syncing(invalidate: bool)  // the handler awaits `asset.sync`; `invalidate` is applied after it
    | Wedged                      // the handler's promise rejected: its completion callback never runs

  /**
   * One entry of `__debounceChanges`: the event types seen, the type the
   * timer-arming call captured (the one the handler uses), where the handler
   * is, and whether it has to run again.
   */
  datatype Entry = Entry(types: set<Kind>, kind: Kind, phase: Phase, restart: bool)

  /**
   * `_watcher`: not yet asked for, the `fs.stat` of the listed paths pending,
   * a stat that rejected (no watcher is ever created), or created on a set of paths.
   */
  datatype Watcher = NoWatcher | Statting(dirs: seq<string>) | StatFailed | Watching(paths: set<string>)

  /** `__making`: no build, `maker.make()` pending, the `setImmediate` restart pending, or `correctCase` of loader templates pending. */
  datatype Build = Idle | Compiling | Restarting | Linking(waiting: set<nat>)

  /** The events the watcher fires. */
  datatype Note = Making | Remaking | Made | ConfigChanged

  /** Everything the watcher keeps besides the debounce table. */
  datatype Sched = Sched(
    /** `__runningPromise` is set. */
    started: bool,
    /** Where the creation of `_watcher` is. */
    watcher: Watcher,
    /** `__watcherReady`. */
    ready: bool,
    /** `__stopping`. */
    stopping: bool,
    /** `_watcher.close()` was called. */
    closed: bool,
    /** `__configFilenames`. */
    configFilenames: seq<string>,
    /** `__applications[i].dependsOn`. */
    dependsOn: seq<set<string>>,
    build: Build,
    /** `__outOfDate`. */
    outOfDate: bool,
    /** The coalescing make timer `__timerId` is pending. */
    timerArmed: bool,
    /** `__stats.classesCompiled`. */
    classesCompiled: nat,
    /** Events fired so far, oldest first. */
    notes: seq<Note>)

  /** The whole watcher: the scheduler and `__debounceChanges`. */
  datatype State = State(sched: Sched, debounce: map<string, Entry>)

  /** The state the constructor leaves. */
  function Initial(): (s: State)
    ensures !s.sched.started && !s.sched.ready && s.sched.build == Idle && s.debounce == map[] && s.sched.notes == []
  {
    State(Sched(false, NoWatcher, false, false, false, [], [], Idle, false, false, 0, []), map[])
  }

  // ------------------------------------------------------------ operations

  /** `setConfigFilenames`: a missing list clears, otherwise every name is resolved. */
  function SetConfigFilenames(env: Env, s: Sched, arr: Option<seq<string>>): (r: Sched)
    ensures r == s.(configFilenames := r.configFilenames)
    ensures arr.None? ==> r.configFilenames == []
    ensures arr.Some? ==> |r.configFilenames| == |arr.value|
                          && forall i :: 0 <= i < |arr.value| ==> r.configFilenames[i] == env.resolve(arr.value[i])
  {
    match arr
    case None => s.(configFilenames := [])
    case Some(a) => s.(configFilenames := seq(|a|, i requires 0 <= i < |a| => env.resolve(a[i])))
  }

  /** `start` throws when it has run before. */
  predicate StartThrows(s: Sched)
  {
    s.started
  }

  /** `start`: one empty `dependsOn` per application, and the `fs.stat` of every listed path under way. */
  function Start(env: Env, s: Sched): Sched
  {
    if StartThrows(s) then s
    else s.(started := true,
            dependsOn := seq(|env.apps|, _ => {}),
            watcher := Statting(WatchDirs(env)))
  }

  /** Every stat has settled: the watcher is created on the confirmed paths, unless one rejected. */
  function WatcherCreated(env: Env, s: Sched, stat: string -> Stat): Sched
    requires s.watcher.Statting?
  {
    match Confirmed(env.resolve, stat, s.watcher.dirs)
    case None => s.(watcher := StatFailed)
    case Some(c) => s.(watcher := Watching(c))
  }

  /** One round of `make()`: the counters are reset and `maker.make()` starts. */
  function MakeRound(s: Sched): Sched
  {
    s.(classesCompiled := 0, outOfDate := false, build := Compiling)
  }

  /** `__make`: the build in flight is returned as it is; otherwise `making` fires and a round starts. */
  function Make(s: Sched): Sched
  {
    if s.build != Idle then s else MakeRound(s.(notes := s.notes + [Making]))
  }

  /** `__scheduleMake`: while no build is in flight, (re)arm the single make timer. */
  function ScheduleMake(s: Sched): Sched
  {
    if s.build == Idle then s.(timerArmed := true) else s
  }

  /** The end of `handleFileChange` when some application is out of date. */
  function Invalidate(s: Sched): Sched
  {
    ScheduleMake(s.(outOfDate := true))
  }

  /** The watcher's `ready` event. */
  function Ready(s: Sched): Sched
  {
    Make(s.(ready := true))
  }

  /** The analyser's `compiledClass` event. */
  function ClassCompiled(s: Sched): Sched
  {
    s.(classesCompiled := s.classesCompiled + 1)
  }

  /** The make timer fires (its stale id stays in `__timerId`; only whether a timer is pending is modelled). */
  function MakeTimerFires(s: Sched): Sched
  {
    Make(s.(timerArmed := false))
  }

  /** `__onFileChange` up to the point where it returns. */
  function FileChange(s: State, kind: Kind, path: string): State
  {
    if !s.sched.ready then s
    else if path in s.debounce && s.debounce[path].phase != Armed then
      var e := s.debounce[path];
      s.(debounce := s.debounce[path := e.(types := e.types + {kind}, restart := true)])
    else if path in s.debounce then
      var e := s.debounce[path];
      s.(debounce := s.debounce[path := e.(types := e.types + {kind}, kind := kind)])
    else
      s.(debounce := s.debounce[path := Entry({kind}, kind, Armed, false)])
  }

  /**
   * `handleFileChange` up to its first `await`: the scheduler it leaves and
   * the phase its entry moves to.
   */
  function HandleFileChange(env: Env, s: Sched, kind: Kind, path: string, assetFound: bool): (Sched, Phase)
    requires |s.dependsOn| == |env.apps|
  {
    if IsConfigFile(s.configFilenames, path) then (s.(notes := s.notes + [ConfigChanged]), Running)
    else
      var invalidate := Invalidates(env, s.dependsOn, path);
      if NeedsSync(env, kind, path, assetFound) then (s, Syncing(invalidate))
      else (if invalidate then Invalidate(s) else s, Running)
  }

  /** `runIt`: the handler runs with the type its entry captured. */
  function RunIt(env: Env, s: State, path: string, assetFound: bool): State
    requires path in s.debounce && |s.sched.dependsOn| == |env.apps|
  {
    var e := s.debounce[path];
    var (t, phase) := HandleFileChange(env, s.sched, e.kind, path, assetFound);
    State(t, s.debounce[path := e.(phase := phase)])
  }

  /** The 150 ms debounce timer of `path` fires. */
  function DebounceFires(env: Env, s: State, path: string, assetFound: bool): State
    requires path in s.debounce && |s.sched.dependsOn| == |env.apps|
  {
    RunIt(env, s, path, assetFound)
  }

  /**
   * The handler of `path` settles: a failed sync wedges the entry; otherwise
   * the postponed invalidation applies, then the handler runs again when
   * `restart` is set, and the entry is deleted when it is not. The source
   * never clears `restart` (`clearRestart` false); the corrected completion
   * clears it before running the handler again.
   */
  function HandlerSettles(env: Env, s: State, path: string, syncOk: bool, assetFound: bool, clearRestart: bool): State
    requires path in s.debounce && |s.sched.dependsOn| == |env.apps|
  {
    var e := s.debounce[path];
    if e.phase.Syncing? && !syncOk then s.(debounce := s.debounce[path := e.(phase := Wedged)])
    else
      var t := if e.phase.Syncing? && e.phase.invalidate then Invalidate(s.sched) else s.sched;
      if e.restart then
        RunIt(env, State(t, if clearRestart then s.debounce[path := e.(restart := false)] else s.debounce), path, assetFound)
      else State(t, s.debounce - {path})
  }

  /** Every application index. */
  function AllApps(n: nat): (r: set<nat>)
    ensures forall i: nat :: i in r <==> i < n
  {
    if n == 0 then {} else AllApps(n - 1) + {n - 1}
  }

  /**
   * `maker.make()` settles. A failure fires `made`; while stopping nothing
   * fires; an invalidation during the build restarts it; otherwise every
   * `dependsOn` is rebuilt from the dependencies and the loader templates are
   * awaited.
   */
  function MakeSettles(env: Env, s: Sched, ok: bool, deps: seq<seq<ClassDep>>): Sched
    requires |deps| == |s.dependsOn|
  {
    if !ok then s.(build := Idle, notes := s.notes + [Made])
    else if s.stopping then s.(build := Idle)
    else if s.outOfDate then s.(build := Restarting)
    else
      var d := seq(|deps|, i requires 0 <= i < |deps| => DependencyFiles(env.resolve, deps[i]));
      if |deps| == 0 then s.(dependsOn := d, build := Idle, notes := s.notes + [Made])
      else s.(dependsOn := d, build := Linking(AllApps(|deps|)))
  }

  /** The `setImmediate` restart: `remaking` fires and a new round starts while the build stays in flight. */
  function Remake(s: Sched): Sched
  {
    MakeRound(s.(notes := s.notes + [Remaking]))
  }

  /** `correctCase` of application `app`'s loader template resolves; the last one fires `made` and ends the build. */
  function LoaderResolved(s: Sched, app: nat, corrected: string): Sched
    requires s.build.Linking? && app < |s.dependsOn|
  {
    var d := s.dependsOn[app := s.dependsOn[app] + {corrected}];
    var waiting := s.build.waiting - {app};
    if waiting == {} then s.(dependsOn := d, build := Idle, notes := s.notes + [Made])
    else s.(dependsOn := d, build := Linking(waiting))
  }

  /** `stop`: `_watcher.close()` throws before the watcher exists, after `__stopping` is set. */
  function Stop(s: Sched): Sched
  {
    if s.watcher.Watching? then s.(stopping := true, closed := true) else s.(stopping := true)
  }

  // --------------------------------------------------------------- events

  datatype Event =
    | SetConfig(arr: Option<seq<string>>)
    | StartWatching
    | StatsSettled(stat: string -> Stat)
    | WatcherReady
    | CompiledClass
    | FileEvent(kind: Kind, path: string)
    | DebounceTimer(path: string, assetFound: bool)
    | HandlerDone(path: string, syncOk: bool, assetFound: bool)
    | MakeTimer
    | MakeDone(ok: bool, deps: seq<seq<ClassDep>>)
    | RestartMake
    | LoaderCorrected(app: nat, corrected: string)
    | StopWatching

  /** When each continuation can run. */
  predicate Enabled(s: State, e: Event)
  {
    match e
    case SetConfig(_) => true
    case StartWatching => true
    case StatsSettled(_) => s.sched.watcher.Statting?
    case WatcherReady => s.sched.watcher.Watching? && !s.sched.ready && !s.sched.closed
    case CompiledClass => s.sched.started
    case FileEvent(_, _) => s.sched.watcher.Watching? && !s.sched.closed
    case DebounceTimer(p, _) => p in s.debounce && s.debounce[p].phase == Armed
    case HandlerDone(p, _, _) => p in s.debounce && (s.debounce[p].phase == Running || s.debounce[p].phase.Syncing?)
    case MakeTimer => s.sched.timerArmed
    case MakeDone(_, deps) => s.sched.build == Compiling && |deps| == |s.sched.dependsOn|
    case RestartMake => s.sched.build == Restarting
    case LoaderCorrected(app, _) => s.sched.build.Linking? && app in s.sched.build.waiting
    case StopWatching => true
  }

  /** What always holds of the scheduler between events. */
  predicate SchedInv(env: Env, s: Sched)
  {
    && (s.started ==> |s.dependsOn| == |env.apps|)
    && (!s.started <==> s.watcher == NoWatcher)
    && (s.ready ==> s.watcher.Watching?)
    && (s.closed ==> s.watcher.Watching?)
    && (!s.ready ==> s.build == Idle && !s.timerArmed && !s.outOfDate)
    && (s.timerArmed ==> s.build == Idle)
    && (s.build.Linking? ==> s.build.waiting != {} && forall i :: i in s.build.waiting ==> i < |s.dependsOn|)
  }

  /** What always holds between events: no debounce entry exists before the watcher is ready. */
  predicate Inv(env: Env, s: State)
  {
    SchedInv(env, s.sched) && (!s.sched.ready ==> s.debounce == map[])
  }

  function Step(env: Env, s: State, e: Event): State
    requires Inv(env, s) && Enabled(s, e)
  {
    match e
    case SetConfig(arr) => s.(sched := SetConfigFilenames(env, s.sched, arr))
    case StartWatching => s.(sched := Start(env, s.sched))
    case StatsSettled(stat) => s.(sched := WatcherCreated(env, s.sched, stat))
    case WatcherReady => s.(sched := Ready(s.sched))
    case CompiledClass => s.(sched := ClassCompiled(s.sched))
    case FileEvent(kind, path) => FileChange(s, kind, path)
    case DebounceTimer(path, found) => DebounceFires(env, s, path, found)
    case HandlerDone(path, ok, found) => HandlerSettles(env, s, path, ok, found, false)
    case MakeTimer => s.(sched := MakeTimerFires(s.sched))
    case MakeDone(ok, deps) => s.(sched := MakeSettles(env, s.sched, ok, deps))
    case RestartMake => s.(sched := Remake(s.sched))
    case LoaderCorrected(app, corrected) => s.(sched := LoaderResolved(s.sched, app, corrected))
    case StopWatching => s.(sched := Stop(s.sched))
  }

  // ------------------------------------------------------ corrected completions

  /**
   * A change noticed while a build is in flight sets `__outOfDate` and relies
   * on the build to pick it up. This predicate says such a change is never
   * lost: while it is pending and the watcher is not stopping, a build is in
   * flight or the make timer is armed.
   */
  predicate KeepsInvalidation(s: Sched)
  {
    s.outOfDate && !s.stopping ==> s.build != Idle || s.timerArmed
  }

  /** A build that ends while `__outOfDate` is set schedules the next one. */
  function Reschedule(s: Sched): Sched
  {
    if s.outOfDate && !s.stopping then ScheduleMake(s) else s
  }

  /** `maker.make()` settling, followed by `Reschedule`. */
  function MakeSettlesRescheduling(env: Env, s: Sched, ok: bool, deps: seq<seq<ClassDep>>): Sched
    requires |deps| == |s.dependsOn|
  {
    Reschedule(MakeSettles(env, s, ok, deps))
  }

  /** A loader template resolving, followed by `Reschedule`. */
  function LoaderResolvedRescheduling(s: Sched, app: nat, corrected: string): Sched
    requires s.build.Linking? && app < |s.dependsOn|
  {
    Reschedule(LoaderResolved(s, app, corrected))
  }

  /** `Step` with both ends of a build rescheduling and `restart` cleared when the handler re-runs. */
  function StepCorrected(env: Env, s: State, e: Event): State
    requires Inv(env, s) && Enabled(s, e)
  {
    match e
    case HandlerDone(path, ok, found) => HandlerSettles(env, s, path, ok, found, true)
    case MakeDone(ok, deps) => s.(sched := MakeSettlesRescheduling(env, s.sched, ok, deps))
    case LoaderCorrected(app, corrected) => s.(sched := LoaderResolvedRescheduling(s.sched, app, corrected))
    case _ => Step(env, s, e)
  }
}
