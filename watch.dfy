/**
 * `qx.tool.cli.Watch` as an object: its fields are the source's members, and
 * every callback of the source is a method whose effect is the matching
 * event of the state machine in `WatchMachine`.
 */
module Watch {
  import opened Wrappers
  import opened Strings
  import opened WatchPaths
  import M = WatchMachine
  import L = WatchLemmas

  class Watch {
    /** The maker, the analyser and `path.resolve`. */
    const env: Env

    /** `__runningPromise` is set. */
    var started: bool
    /** Where the creation of `_watcher` is. */
    var watcher: M.Watcher
    var watcherReady: bool
    var stopping: bool
    /** `_watcher.close()` was called. */
    var closed: bool
    var configFilenames: seq<string>
    /** `__applications[i].dependsOn`. */
    var dependsOn: seq<set<string>>
    /** `__making`. */
    var making: M.Build
    var outOfDate: bool
    /** `__timerId` names a pending timer. */
    var timerArmed: bool
    /** `__stats.classesCompiled`. */
    var classesCompiled: nat
    /** The events fired, oldest first. */
    var fired: seq<M.Note>
    var debounceChanges: map<string, M.Entry>

    function Sched(): M.Sched
      reads this
    {
      M.Sched(started, watcher, watcherReady, stopping, closed, configFilenames, dependsOn,
              making, outOfDate, timerArmed, classesCompiled, fired)
    }

    function State(): M.State
      reads this
    {
      M.State(Sched(), debounceChanges)
    }

    ghost predicate Valid()
      reads this
    {
      M.Inv(env, State())
    }

    constructor(env: Env)
      ensures this.env == env && State() == M.Initial() && Valid()
    {
      this.env := env;
      started := false;
      watcher := M.NoWatcher;
      watcherReady := false;
      stopping := false;
      closed := false;
      configFilenames := [];
      dependsOn := [];
      making := M.Idle;
      outOfDate := false;
      timerArmed := false;
      classesCompiled := 0;
      fired := [];
      debounceChanges := map[];
    }

    method SetConfigFilenames(arr: Option<seq<string>>)
      requires Valid()
      modifies this
      ensures State() == M.Step(env, old(State()), M.SetConfig(arr)) && Valid()
    {
      L.StepKeepsInv(env, State(), M.SetConfig(arr));
      match arr {
        case None =>
          configFilenames := [];
        case Some(a) =>
          configFilenames := seq(|a|, i requires 0 <= i < |a| => env.resolve(a[i]));
      }
    }

    /** `start` up to the `fs.stat` calls: `thrown` when it has run before. */
    method Start() returns (thrown: bool)
      requires Valid()
      modifies this
      ensures thrown == old(started)
      ensures State() == M.Step(env, old(State()), M.StartWatching) && Valid()
    {
      L.StepKeepsInv(env, State(), M.StartWatching);
      if started {
        return true;
      }
      thrown := false;
      started := true;
      var dirs, apps := CollectDirs();
      dependsOn := apps;
      watcher := M.Statting(dirs);
    }

    /** The `then` of `Promise.all` over the stats: the watcher on the confirmed paths, or none when a stat rejected. */
    method OnStatsSettled(stat: string -> Stat)
      requires Valid() && M.Enabled(State(), M.StatsSettled(stat))
      modifies this
      ensures State() == M.Step(env, old(State()), M.StatsSettled(stat)) && Valid()
    {
      L.StepKeepsInv(env, State(), M.StatsSettled(stat));
      var confirmed := ConfirmDirs(watcher.dirs, stat);
      if confirmed.Some? {
        watcher := M.Watching(confirmed.value);
      } else {
        watcher := M.StatFailed;
      }
    }

    /** The path list of `start` and one empty `dependsOn` per application. */
    method CollectDirs() returns (dirs: seq<string>, apps: seq<set<string>>)
      ensures dirs == WatchDirs(env)
      ensures apps == seq(|env.apps|, _ => {})
    {
      dirs := CollectLibraryDirs();
      dirs, apps := CollectApplications(dirs);
    }

    /** The two config files, then the source, resource and theme directory of every library. */
    method CollectLibraryDirs() returns (dirs: seq<string>)
      ensures dirs == [env.configFileName, "compile.js"] + LibraryDirs(env.libraries)
    {
      dirs := [env.configFileName, "compile.js"];
      var i := 0;
      while i < |env.libraries|
        invariant 0 <= i <= |env.libraries|
        invariant dirs == [env.configFileName, "compile.js"] + LibraryDirs(env.libraries[..i])
      {
        var lib := env.libraries[i];
        assert env.libraries[..i + 1][..i] == env.libraries[..i];
        dirs := dirs + [PathJoin(lib.rootDir, lib.sourcePath), PathJoin(lib.rootDir, lib.resourcePath), PathJoin(lib.rootDir, lib.themePath)];
        i := i + 1;
      }
      assert env.libraries[..i] == env.libraries;
    }

    /** One application record per application, and its boot path when set and not yet listed. */
    method CollectApplications(base: seq<string>) returns (dirs: seq<string>, apps: seq<set<string>>)
      ensures dirs == AddBootPaths(base, BootPaths(env.apps))
      ensures apps == seq(|env.apps|, _ => {})
    {
      ghost var boots := BootPaths(env.apps);
      dirs := base;
      apps := [];
      var j := 0;
      while j < |env.apps|
        invariant 0 <= j <= |env.apps|
        invariant dirs == AddBootPaths(base, boots[..j])
        invariant apps == seq(j, _ => {})
      {
        assert boots[..j + 1][..j] == boots[..j];
        apps := apps + [{}];
        var dir := env.apps[j].bootPath;
        if dir != "" && dir !in dirs {
          dirs := dirs + [dir];
        }
        j := j + 1;
      }
      assert boots[..j] == boots;
    }

    /** The `fs.stat` of every path: a stat error other than ENOENT leaves no watcher. */
    method ConfirmDirs(dirs: seq<string>, stat: string -> Stat) returns (confirmed: Option<set<string>>)
      ensures confirmed == Confirmed(env.resolve, stat, dirs)
    {
      confirmed := Some({});
      var i := 0;
      while i < |dirs|
        invariant 0 <= i <= |dirs|
        invariant confirmed == Confirmed(env.resolve, stat, dirs[..i])
      {
        assert dirs[..i + 1][..i] == dirs[..i];
        if confirmed.Some? {
          match stat(env.resolve(dirs[i])) {
            case StatError => confirmed := None;
            case Missing =>
            case Found(dir) => confirmed := Some(confirmed.value + {dir});
          }
        }
        i := i + 1;
      }
      assert dirs[..i] == dirs;
    }

    /** `__make`. */
    method Make()
      modifies this
      ensures Sched() == M.Make(old(Sched())) && debounceChanges == old(debounceChanges)
    {
      if making != M.Idle {
        return;
      }
      fired := fired + [M.Making];
      classesCompiled := 0;
      outOfDate := false;
      making := M.Compiling;
    }

    /** `__scheduleMake`. */
    method ScheduleMake()
      modifies this
      ensures Sched() == M.ScheduleMake(old(Sched())) && debounceChanges == old(debounceChanges)
    {
      if making == M.Idle {
        timerArmed := true;
      }
    }

    /** The watcher's `ready` event. */
    method OnReady()
      requires Valid() && M.Enabled(State(), M.WatcherReady)
      modifies this
      ensures State() == M.Step(env, old(State()), M.WatcherReady) && Valid()
    {
      L.StepKeepsInv(env, State(), M.WatcherReady);
      watcherReady := true;
      Make();
    }

    /** The analyser's `compiledClass` event. */
    method OnCompiledClass()
      requires Valid() && M.Enabled(State(), M.CompiledClass)
      modifies this
      ensures State() == M.Step(env, old(State()), M.CompiledClass) && Valid()
    {
      L.StepKeepsInv(env, State(), M.CompiledClass);
      classesCompiled := classesCompiled + 1;
    }

    /** `__onFileChange`. */
    method OnFileChange(kind: Kind, path: string)
      requires Valid() && M.Enabled(State(), M.FileEvent(kind, path))
      modifies this
      ensures State() == M.Step(env, old(State()), M.FileEvent(kind, path)) && Valid()
    {
      L.StepKeepsInv(env, State(), M.FileEvent(kind, path));
      if !watcherReady {
        return;
      }
      var dbc: M.Entry;
      if path in debounceChanges {
        dbc := debounceChanges[path];
      } else {
        dbc := M.Entry({}, kind, M.Armed, false);
        assert {} + {kind} == {kind};
      }
      dbc := dbc.(types := dbc.types + {kind});
      if dbc.phase != M.Armed {
        debounceChanges := debounceChanges[path := dbc.(restart := true)];
        return;
      }
      debounceChanges := debounceChanges[path := dbc.(kind := kind)];
    }

    /** `handleFileChange` up to its first `await`; `phase` is where its entry goes. */
    method HandleFileChange(kind: Kind, path: string, assetFound: bool) returns (phase: M.Phase)
      requires |dependsOn| == |env.apps|
      modifies this
      ensures (Sched(), phase) == M.HandleFileChange(env, old(Sched()), kind, path, assetFound)
      ensures debounceChanges == old(debounceChanges)
    {
      if IsConfigFile(configFilenames, path) {
        fired := fired + [M.ConfigChanged];
        return M.Running;
      }
      var invalid := false;
      var i := 0;
      while i < |env.apps|
        invariant 0 <= i <= |env.apps|
        invariant invalid == InvalidatesUpTo(env, dependsOn, path, i)
      {
        if path in dependsOn[i] {
          invalid := true;
        } else {
          var boot := env.apps[i].bootPath;
          if boot != "" && StartsWith(path, env.resolve(boot)) {
            invalid := true;
          }
        }
        i := i + 1;
      }
      if NeedsSync(env, kind, path, assetFound) {
        return M.Syncing(invalid);
      }
      if invalid {
        outOfDate := true;
        ScheduleMake();
      }
      return M.Running;
    }

    /** `runIt`. */
    method RunIt(path: string, assetFound: bool)
      requires path in debounceChanges && |dependsOn| == |env.apps|
      modifies this
      ensures State() == M.RunIt(env, old(State()), path, assetFound)
    {
      var dbc := debounceChanges[path];
      var phase := HandleFileChange(dbc.kind, path, assetFound);
      debounceChanges := debounceChanges[path := dbc.(phase := phase)];
    }

    /** The debounce timer of `path` fires. */
    method OnDebounceTimer(path: string, assetFound: bool)
      requires Valid() && M.Enabled(State(), M.DebounceTimer(path, assetFound))
      modifies this
      ensures State() == M.Step(env, old(State()), M.DebounceTimer(path, assetFound)) && Valid()
    {
      L.StepKeepsInv(env, State(), M.DebounceTimer(path, assetFound));
      RunIt(path, assetFound);
    }

    /** The handler of `path` settles; `syncOk` is false when `asset.sync` rejected. */
    method OnHandlerSettled(path: string, syncOk: bool, assetFound: bool)
      requires Valid() && M.Enabled(State(), M.HandlerDone(path, syncOk, assetFound))
      modifies this
      ensures State() == M.Step(env, old(State()), M.HandlerDone(path, syncOk, assetFound)) && Valid()
    {
      L.StepKeepsInv(env, State(), M.HandlerDone(path, syncOk, assetFound));
      var dbc := debounceChanges[path];
      if dbc.phase.Syncing? {
        if !syncOk {
          debounceChanges := debounceChanges[path := dbc.(phase := M.Wedged)];
          return;
        }
        if dbc.phase.invalidate {
          outOfDate := true;
          ScheduleMake();
        }
      }
      if dbc.restart {
        RunIt(path, assetFound);
      } else {
        debounceChanges := debounceChanges - {path};
      }
    }

    /** The make timer fires. */
    method OnMakeTimer()
      requires Valid() && M.Enabled(State(), M.MakeTimer)
      modifies this
      ensures State() == M.Step(env, old(State()), M.MakeTimer) && Valid()
    {
      L.StepKeepsInv(env, State(), M.MakeTimer);
      timerArmed := false;
      Make();
    }

    /** `maker.make()` settles; `deps` are the dependencies of each application. */
    method OnMakeSettled(ok: bool, deps: seq<seq<ClassDep>>)
      requires Valid() && M.Enabled(State(), M.MakeDone(ok, deps))
      modifies this
      ensures State() == M.Step(env, old(State()), M.MakeDone(ok, deps)) && Valid()
    {
      L.StepKeepsInv(env, State(), M.MakeDone(ok, deps));
      if !ok {
        making := M.Idle;
        fired := fired + [M.Made];
        return;
      }
      if stopping {
        making := M.Idle;
        return;
      }
      if outOfDate {
        making := M.Restarting;
        return;
      }
      dependsOn := DependsOnFor(deps);
      if |deps| == 0 {
        fired := fired + [M.Made];
        making := M.Idle;
      } else {
        making := M.Linking(M.AllApps(|deps|));
      }
    }

    /** The new `dependsOn` of every application: emptied, then one file per dependency. */
    method DependsOnFor(deps: seq<seq<ClassDep>>) returns (d: seq<set<string>>)
      ensures d == seq(|deps|, i requires 0 <= i < |deps| => DependencyFiles(env.resolve, deps[i]))
    {
      d := [];
      var i := 0;
      while i < |deps|
        invariant 0 <= i <= |deps| && |d| == i
        invariant forall j :: 0 <= j < i ==> d[j] == DependencyFiles(env.resolve, deps[j])
      {
        var files := {};
        var k := 0;
        while k < |deps[i]|
          invariant 0 <= k <= |deps[i]|
          invariant files == DependencyFiles(env.resolve, deps[i][..k])
        {
          assert deps[i][..k + 1][..k] == deps[i][..k];
          files := files + {DependencyFile(env.resolve, deps[i][k])};
          k := k + 1;
        }
        assert deps[i][..k] == deps[i];
        d := d + [files];
        i := i + 1;
      }
    }

    /** The `setImmediate` restart. */
    method OnRestart()
      requires Valid() && M.Enabled(State(), M.RestartMake)
      modifies this
      ensures State() == M.Step(env, old(State()), M.RestartMake) && Valid()
    {
      L.StepKeepsInv(env, State(), M.RestartMake);
      fired := fired + [M.Remaking];
      classesCompiled := 0;
      outOfDate := false;
      making := M.Compiling;
    }

    /** `correctCase` of application `app`'s loader template resolves to `corrected`. */
    method OnLoaderCorrected(app: nat, corrected: string)
      requires Valid() && M.Enabled(State(), M.LoaderCorrected(app, corrected))
      modifies this
      ensures State() == M.Step(env, old(State()), M.LoaderCorrected(app, corrected)) && Valid()
    {
      L.StepKeepsInv(env, State(), M.LoaderCorrected(app, corrected));
      dependsOn := dependsOn[app := dependsOn[app] + {corrected}];
      var waiting := making.waiting - {app};
      if waiting == {} {
        fired := fired + [M.Made];
        making := M.Idle;
      } else {
        making := M.Linking(waiting);
      }
    }

    /** `stop`. */
    method Stop()
      requires Valid()
      modifies this
      ensures State() == M.Step(env, old(State()), M.StopWatching) && Valid()
    {
      L.StepKeepsInv(env, State(), M.StopWatching);
      stopping := true;
      if watcher.Watching? {
        closed := true;
      }
    }
  }
}
