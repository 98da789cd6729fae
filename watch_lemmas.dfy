/**
 * What the scheduler of `qx.tool.cli.Watch` guarantees, stated over the
 * state machine: the invariant every event keeps, single-flight builds,
 * the debounce table's lifecycle, the classifier and the build outcomes.
 */
module WatchLemmas {
  import opened Wrappers
  import opened Strings
  import opened WatchPaths
  import opened WatchMachine

  // -------------------------------------------------------------- invariant

  lemma InitialInv(env: Env)
    ensures Inv(env, Initial())
  {
  }

  /** A handler run keeps the scheduler's invariant and touches neither the build nor `dependsOn`. */
  lemma HandlerKeepsSched(env: Env, s: Sched, kind: Kind, path: string, assetFound: bool)
    requires SchedInv(env, s) && s.ready && |s.dependsOn| == |env.apps|
    ensures var (r, phase) := HandleFileChange(env, s, kind, path, assetFound);
            && SchedInv(env, r) && r.ready
            && phase != Armed && phase != Wedged
            && r.build == s.build && r.dependsOn == s.dependsOn && r.stopping == s.stopping
            && (r.notes == s.notes || r.notes == s.notes + [ConfigChanged])
            && (r.timerArmed ==> s.timerArmed || s.build == Idle)
            && (KeepsInvalidation(s) ==> KeepsInvalidation(r))
  {
  }

  /** The settling of a handler, in the same terms. */
  lemma SettleKeepsSched(env: Env, s: State, path: string, syncOk: bool, assetFound: bool, clearRestart: bool)
    requires Inv(env, s) && path in s.debounce && s.sched.ready
    ensures var r := HandlerSettles(env, s, path, syncOk, assetFound, clearRestart).sched;
            && SchedInv(env, r) && r.ready
            && r.build == s.sched.build && r.dependsOn == s.sched.dependsOn && r.stopping == s.sched.stopping
            && (r.notes == s.sched.notes || r.notes == s.sched.notes + [ConfigChanged])
            && (r.timerArmed ==> s.sched.timerArmed || s.sched.build == Idle)
            && (KeepsInvalidation(s.sched) ==> KeepsInvalidation(r))
  {
    var e := s.debounce[path];
    if !(e.phase.Syncing? && !syncOk) {
      var t := if e.phase.Syncing? && e.phase.invalidate then Invalidate(s.sched) else s.sched;
      if e.restart {
        HandlerKeepsSched(env, t, e.kind, path, assetFound);
      }
    }
  }

  /** Every event keeps the invariant. */
  lemma StepKeepsInv(env: Env, s: State, e: Event)
    requires Inv(env, s) && Enabled(s, e)
    ensures Inv(env, Step(env, s, e))
  {
    match e {
      case DebounceTimer(p, f) =>
        HandlerKeepsSched(env, s.sched, s.debounce[p].kind, p, f);
      case HandlerDone(p, ok, f) =>
        SettleKeepsSched(env, s, p, ok, f, false);
      case _ =>
    }
  }

  // ----------------------------------------------------------------- start

  /**
   * The first `start` marks the watcher started, with one empty `dependsOn`
   * per application and the stat of the listed paths under way; a second one
   * throws and changes nothing.
   */
  lemma StartOnlyOnce(env: Env, s: Sched)
    ensures !StartThrows(s) ==> var r := Start(env, s);
              && r.started && r.watcher == Statting(WatchDirs(env))
              && |r.dependsOn| == |env.apps| && (forall i :: 0 <= i < |env.apps| ==> r.dependsOn[i] == {})
    ensures StartThrows(s) ==> Start(env, s) == s
    ensures StartThrows(Start(env, s))
  {
  }

  /**
   * Once every stat settled, the watcher exists exactly when no stat failed
   * with anything but ENOENT, and it watches exactly the existing paths;
   * nothing else changes.
   */
  lemma StartWatches(env: Env, s: Sched, stat: string -> Stat, c: string)
    requires s.watcher.Statting?
    ensures var dirs := s.watcher.dirs;
            var r := WatcherCreated(env, s, stat);
            && r == s.(watcher := r.watcher)
            && (r.watcher.StatFailed? || r.watcher.Watching?)
            && (r.watcher.StatFailed? <==> exists i :: 0 <= i < |dirs| && stat(env.resolve(dirs[i])).StatError?)
            && (r.watcher.Watching? ==> (c in r.watcher.paths <==> exists i :: 0 <= i < |dirs| && stat(env.resolve(dirs[i])) == Found(c)))
  {
    ConfirmedFails(env.resolve, stat, s.watcher.dirs);
    if WatcherCreated(env, s, stat).watcher.Watching? {
      ConfirmedHolds(env.resolve, stat, s.watcher.dirs, c);
    }
  }

  /**
   * `stop` while the stats are pending throws before closing anything; the
   * watcher is still created afterwards, stays open, and its `ready` event
   * still starts a build.
   */
  lemma StopWhileStatting(env: Env, s: State, stat: string -> Stat)
    requires Inv(env, s) && s.sched.watcher.Statting?
    requires Confirmed(env.resolve, stat, s.sched.watcher.dirs).Some?
    ensures var s1 := Step(env, s, StopWatching);
            && Inv(env, s1) && Enabled(s1, StatsSettled(stat))
            && var s2 := Step(env, s1, StatsSettled(stat));
               && Inv(env, s2) && s2.sched.stopping && s2.sched.watcher.Watching? && !s2.sched.closed
               && Enabled(s2, WatcherReady)
               && Step(env, s2, WatcherReady).sched.build == Compiling
  {
    StepKeepsInv(env, s, StopWatching);
    var s1 := Step(env, s, StopWatching);
    assert s1.sched == s.sched.(stopping := true);
    StepKeepsInv(env, s1, StatsSettled(stat));
    var s2 := Step(env, s1, StatsSettled(stat));
    assert s2.sched == s1.sched.(watcher := Watching(Confirmed(env.resolve, stat, s.sched.watcher.dirs).value));
    assert !s2.sched.ready && s2.sched.build == Idle;
  }

  // ---------------------------------------------------------- single flight

  /** `__make` with a build in flight returns it: no second build, no `making` event. */
  lemma MakeWhileBuilding(s: Sched)
    requires s.build != Idle
    ensures Make(s) == s
  {
  }

  /** The make timer only ever fires while idle, so it always starts a fresh build. */
  lemma MakeTimerStartsBuild(env: Env, s: State)
    requires Inv(env, s) && Enabled(s, MakeTimer)
    ensures var r := Step(env, s, MakeTimer).sched;
            r.build == Compiling && !r.timerArmed && !r.outOfDate && r.classesCompiled == 0 && r.notes == s.sched.notes + [Making]
  {
  }

  /** `__scheduleMake` does nothing while a build is in flight, and arms the timer otherwise. */
  lemma ScheduleMakeSingle(s: Sched)
    ensures s.build != Idle ==> ScheduleMake(s) == s
    ensures s.build == Idle ==> ScheduleMake(s) == s.(timerArmed := true)
  {
  }

  /** Only the build's own continuations touch a build in flight; no other event starts a second one or arms the timer. */
  lemma BuildInFlightKept(env: Env, s: State, e: Event)
    requires Inv(env, s) && Enabled(s, e) && s.sched.build != Idle
    requires !e.MakeDone? && !e.RestartMake? && !e.LoaderCorrected?
    ensures var r := Step(env, s, e).sched;
            && r.build == s.sched.build
            && !r.timerArmed
            && (r.notes == s.sched.notes || r.notes == s.sched.notes + [ConfigChanged])
  {
    match e {
      case DebounceTimer(p, f) =>
        HandlerKeepsSched(env, s.sched, s.debounce[p].kind, p, f);
      case HandlerDone(p, ok, f) =>
        SettleKeepsSched(env, s, p, ok, f, false);
      case _ =>
    }
  }

  /** An invalidation always sets `__outOfDate`, and arms the make timer exactly when no build is in flight. */
  lemma InvalidateMarks(s: Sched)
    ensures Invalidate(s).outOfDate
    ensures Invalidate(s).timerArmed <==> s.timerArmed || s.build == Idle
    ensures Invalidate(s).build == s.build && Invalidate(s).notes == s.notes
  {
  }

  // ------------------------------------------------------- debounce table

  /** Before the watcher is ready a file event changes nothing. */
  lemma EarlyEventIgnored(s: State, kind: Kind, path: string)
    requires !s.sched.ready
    ensures FileChange(s, kind, path) == s
  {
  }

  /**
   * With a handler in flight an event only records its type and sets
   * `restart`; otherwise it (re)arms the entry's single timer with its own
   * type. Nothing outside the entry changes.
   */
  lemma FileEventDebounces(s: State, kind: Kind, path: string)
    requires s.sched.ready
    ensures var r := FileChange(s, kind, path);
            && r.sched == s.sched
            && path in r.debounce
            && r.debounce.Keys == s.debounce.Keys + {path}
            && (forall p :: p in s.debounce && p != path ==> r.debounce[p] == s.debounce[p])
            && (path in s.debounce ==> r.debounce[path].types == s.debounce[path].types + {kind})
            && (path !in s.debounce ==> r.debounce[path] == Entry({kind}, kind, Armed, false))
            && (path in s.debounce && s.debounce[path].phase != Armed ==>
                  && r.debounce[path].phase == s.debounce[path].phase
                  && r.debounce[path].kind == s.debounce[path].kind
                  && r.debounce[path].restart)
            && (path in s.debounce && s.debounce[path].phase == Armed ==>
                  && r.debounce[path].phase == Armed
                  && r.debounce[path].kind == kind
                  && r.debounce[path].restart == s.debounce[path].restart)
  {
  }

  /** The table after a handler run: only the entry's phase changes, to neither armed nor wedged. */
  lemma RunItTable(env: Env, s: State, path: string, assetFound: bool)
    requires path in s.debounce && |s.sched.dependsOn| == |env.apps|
    ensures var r := RunIt(env, s, path, assetFound).debounce;
            && path in r
            && r == s.debounce[path := s.debounce[path].(phase := r[path].phase)]
            && r[path].phase != Armed && r[path].phase != Wedged
  {
  }

  /** Once `restart` is set it is never cleared and the entry is never deleted: its handler re-runs after every completion. */
  lemma RestartSticky(env: Env, s: State, e: Event, path: string)
    requires Inv(env, s) && Enabled(s, e)
    requires path in s.debounce && s.debounce[path].restart
    ensures path in Step(env, s, e).debounce && Step(env, s, e).debounce[path].restart
  {
    match e {
      case DebounceTimer(p, f) =>
        RunItTable(env, s, p, f);
      case HandlerDone(p, ok, f) =>
        var x := s.debounce[p];
        if !(x.phase.Syncing? && !ok) && x.restart {
          var t := if x.phase.Syncing? && x.phase.invalidate then Invalidate(s.sched) else s.sched;
          RunItTable(env, State(t, s.debounce), p, f);
        }
      case _ =>
    }
  }

  /** A debounce entry disappears only when its handler completes while `restart` is unset. */
  lemma DeletedOnlyWithoutRestart(env: Env, s: State, e: Event, path: string)
    requires Inv(env, s) && Enabled(s, e)
    requires path in s.debounce && path !in Step(env, s, e).debounce
    ensures e.HandlerDone? && e.path == path
    ensures !s.debounce[path].restart
    ensures s.debounce[path].phase == Running || e.syncOk
  {
    match e {
      case DebounceTimer(p, f) =>
        RunItTable(env, s, p, f);
      case _ =>
    }
  }

  /** A handler whose `asset.sync` failed never completes: its entry stays, wedged, whatever happens next. */
  lemma WedgedForever(env: Env, s: State, e: Event, path: string)
    requires Inv(env, s) && Enabled(s, e)
    requires path in s.debounce && s.debounce[path].phase == Wedged
    ensures path in Step(env, s, e).debounce && Step(env, s, e).debounce[path].phase == Wedged
  {
    match e {
      case DebounceTimer(p, f) =>
        RunItTable(env, s, p, f);
      case HandlerDone(p, ok, f) =>
        var x := s.debounce[p];
        if !(x.phase.Syncing? && !ok) && x.restart {
          var t := if x.phase.Syncing? && x.phase.invalidate then Invalidate(s.sched) else s.sched;
          RunItTable(env, State(t, s.debounce), p, f);
        }
      case _ =>
    }
  }

  // --------------------------------------------------------- classification

  /** A config file fires `configChanged` and nothing else: no invalidation, no sync, no other state change. */
  lemma ConfigFileShortCircuits(env: Env, s: State, path: string, assetFound: bool)
    requires path in s.debounce && |s.sched.dependsOn| == |env.apps|
    requires IsConfigFile(s.sched.configFilenames, path)
    ensures var r := DebounceFires(env, s, path, assetFound);
            && r.sched == s.sched.(notes := s.sched.notes + [ConfigChanged])
            && r.debounce == s.debounce[path := s.debounce[path].(phase := Running)]
  {
  }

  /**
   * Any other path invalidates exactly when some application depends on it or
   * it lies under that application's boot path; with an asset to sync, the
   * invalidation waits for the sync.
   */
  lemma HandlerClassifies(env: Env, s: State, path: string, assetFound: bool)
    requires path in s.debounce && |s.sched.dependsOn| == |env.apps|
    requires !IsConfigFile(s.sched.configFilenames, path)
    ensures var r := DebounceFires(env, s, path, assetFound);
            var invalid := exists i :: 0 <= i < |env.apps| && AppInvalidated(env.resolve, s.sched.dependsOn[i], env.apps[i], path);
            && r.sched.notes == s.sched.notes && r.sched.build == s.sched.build
            && (NeedsSync(env, s.debounce[path].kind, path, assetFound) ==>
                  r.debounce[path].phase == Syncing(invalid) && r.sched == s.sched)
            && (!NeedsSync(env, s.debounce[path].kind, path, assetFound) ==>
                  && r.debounce[path].phase == Running
                  && (r.sched.outOfDate <==> s.sched.outOfDate || invalid)
                  && (r.sched.timerArmed <==> s.sched.timerArmed || (invalid && s.sched.build == Idle)))
  {
    InvalidatesSome(env, s.sched.dependsOn, path, |env.apps|);
  }

  /** After a successful sync the postponed invalidation is applied before the entry completes. */
  lemma SyncThenInvalidate(env: Env, s: State, path: string, assetFound: bool)
    requires path in s.debounce && |s.sched.dependsOn| == |env.apps|
    requires s.debounce[path].phase == Syncing(true) && !s.debounce[path].restart
    ensures var r := HandlerSettles(env, s, path, true, assetFound, false);
            && r.sched.outOfDate && path !in r.debounce
            && (s.sched.build == Idle ==> r.sched.timerArmed)
  {
  }

  // ------------------------------------------------------- build outcomes

  /** The four ways `maker.make()` settling ends. */
  lemma MakeDoneOutcomes(env: Env, s: Sched, ok: bool, deps: seq<seq<ClassDep>>)
    requires |deps| == |s.dependsOn|
    ensures var r := MakeSettles(env, s, ok, deps);
            && (!ok ==> r.build == Idle && r.notes == s.notes + [Made] && r.dependsOn == s.dependsOn)
            && (ok && s.stopping ==> r.build == Idle && r.notes == s.notes && r.dependsOn == s.dependsOn)
            && (ok && !s.stopping && s.outOfDate ==> r.build == Restarting && r.notes == s.notes)
            && (ok && !s.stopping && !s.outOfDate ==>
                  && |r.dependsOn| == |deps|
                  && (forall i :: 0 <= i < |deps| ==> r.dependsOn[i] == DependencyFiles(env.resolve, deps[i]))
                  && (|deps| > 0 ==> r.build == Linking(AllApps(|deps|)) && r.notes == s.notes)
                  && (|deps| == 0 ==> r.build == Idle && r.notes == s.notes + [Made]))
  {
  }

  /** The restart fires `remaking` and starts a fresh round with the build still in flight. */
  lemma RestartStartsRound(env: Env, s: State)
    requires Inv(env, s) && Enabled(s, RestartMake)
    ensures var r := Step(env, s, RestartMake).sched;
            r.build == Compiling && !r.outOfDate && r.classesCompiled == 0 && r.notes == s.sched.notes + [Remaking]
  {
  }

  /**
   * While the loader templates are pending, application `i` holds exactly
   * its dependency files plus the corrected template name, once it arrived,
   * and the build waits for exactly the applications whose name has not.
   */
  predicate Linked(s: Sched, files: seq<set<string>>, names: map<nat, string>)
  {
    && |s.dependsOn| == |files|
    && (forall i :: 0 <= i < |files| ==>
          s.dependsOn[i] == files[i] + (if i in names then {names[i]} else {}))
    && (forall i: nat :: i in names ==> i < |files|)
    && (s.build.Linking? ==> forall i: nat :: i < |files| ==> (i in names <==> i !in s.build.waiting))
  }

  /** A successful build starts linking with exactly the dependency files and no template yet. */
  lemma LinkingStarts(env: Env, s: Sched, deps: seq<seq<ClassDep>>)
    requires |deps| == |s.dependsOn| && |deps| > 0 && !s.stopping && !s.outOfDate
    ensures var r := MakeSettles(env, s, true, deps);
            && r.build.Linking?
            && Linked(r, r.dependsOn, map[])
            && forall i :: 0 <= i < |deps| ==> r.dependsOn[i] == DependencyFiles(env.resolve, deps[i])
  {
  }

  /** Each resolved template is added to its own application only. */
  lemma LinkedAfter(s: Sched, files: seq<set<string>>, names: map<nat, string>, app: nat, corrected: string)
    requires s.build.Linking? && app in s.build.waiting
    requires forall i :: i in s.build.waiting ==> i < |s.dependsOn|
    requires Linked(s, files, names)
    ensures Linked(LoaderResolved(s, app, corrected), files, names[app := corrected])
  {
    var r := LoaderResolved(s, app, corrected);
    LinkedUpdate(s.dependsOn, s.build.waiting, r.dependsOn, r.build, files, names, app, corrected);
  }

  /** `LinkedAfter` over the parts of the scheduler it concerns. */
  lemma LinkedUpdate(deps: seq<set<string>>, waiting: set<nat>, deps': seq<set<string>>, build': Build,
                     files: seq<set<string>>, names: map<nat, string>, app: nat, corrected: string)
    requires app in waiting && app < |deps|
    requires deps' == deps[app := deps[app] + {corrected}]
    requires build'.Linking? ==> build'.waiting == waiting - {app}
    requires |deps| == |files|
    requires forall i :: 0 <= i < |files| ==> deps[i] == files[i] + (if i in names then {names[i]} else {})
    requires forall i: nat :: i in names ==> i < |files|
    requires forall i: nat :: i < |files| ==> (i in names <==> i !in waiting)
    ensures var names' := names[app := corrected];
            && |deps'| == |files|
            && (forall i :: 0 <= i < |files| ==> deps'[i] == files[i] + (if i in names' then {names'[i]} else {}))
            && (forall i: nat :: i in names' ==> i < |files|)
            && (build'.Linking? ==> forall i: nat :: i < |files| ==> (i in names' <==> i !in build'.waiting))
  {
    var names' := names[app := corrected];
    forall i | 0 <= i < |files|
      ensures deps'[i] == files[i] + (if i in names' then {names'[i]} else {})
    {
      if i != app {
        assert deps'[i] == deps[i];
      }
    }
  }

  /**
   * The last resolved template fires `made`, ends the build, and leaves every
   * `dependsOn` equal to its dependency files plus its template; an earlier
   * one fires nothing.
   */
  lemma LinkingStep(s: Sched, files: seq<set<string>>, names: map<nat, string>, app: nat, corrected: string)
    requires s.build.Linking? && app in s.build.waiting
    requires forall i :: i in s.build.waiting ==> i < |s.dependsOn|
    requires Linked(s, files, names)
    ensures var r := LoaderResolved(s, app, corrected);
            var names' := names[app := corrected];
            && Linked(r, files, names')
            && (r.build == Idle <==> forall i: nat :: i < |files| ==> i in names')
            && (r.build == Idle ==> && r.notes == s.notes + [Made]
                                    && forall i :: 0 <= i < |files| ==> r.dependsOn[i] == files[i] + {names'[i]})
            && (r.build != Idle ==> r.notes == s.notes)
  {
    LinkedAfter(s, files, names, app, corrected);
    var r := LoaderResolved(s, app, corrected);
    var names' := names[app := corrected];
    var w := s.build.waiting - {app};
    if w == {} {
      forall i: nat | i < |files|
        ensures i in names'
      {
        if i != app {
          assert i !in w;
        }
      }
    } else {
      var j :| j in w;
      assert j < |files| && j !in names';
    }
  }

  /** Events other than the build's own continuations leave `dependsOn` alone. */
  lemma DependsOnOnlyByBuild(env: Env, s: State, e: Event)
    requires Inv(env, s) && Enabled(s, e) && s.sched.started
    requires !e.MakeDone? && !e.LoaderCorrected?
    ensures Step(env, s, e).sched.dependsOn == s.sched.dependsOn
  {
    match e {
      case DebounceTimer(p, f) =>
        HandlerKeepsSched(env, s.sched, s.debounce[p].kind, p, f);
      case HandlerDone(p, ok, f) =>
        SettleKeepsSched(env, s, p, ok, f, false);
      case _ =>
    }
  }

  /** When stopping, a successful build fires nothing; a make timer still pending at `stop` still starts a build. */
  lemma StoppingBehaviour(env: Env, s: State, deps: seq<seq<ClassDep>>)
    requires Inv(env, s) && s.sched.stopping && |deps| == |s.sched.dependsOn|
    ensures s.sched.build == Compiling ==> MakeSettles(env, s.sched, true, deps).notes == s.sched.notes
    ensures s.sched.timerArmed ==> Step(env, s, MakeTimer).sched.build == Compiling
  {
  }

  // ------------------------------------------------------ lost invalidation

  /**
   * As written, a change seen while `maker.make()` is failing is dropped: the
   * build ends with `__outOfDate` set and nothing scheduled.
   */
  lemma LostAfterFailedBuild()
    ensures var env := Env(p => p, "compile.json", [], []);
            var s := State(Sched(true, Watching({}), true, false, false, [], [], Compiling, true, false, 0, []), map[]);
            && Inv(env, s) && Enabled(s, MakeDone(false, [])) && KeepsInvalidation(s.sched)
            && !KeepsInvalidation(Step(env, s, MakeDone(false, [])).sched)
  {
  }

  /**
   * As written, a change seen while the loader template's case is being
   * corrected is dropped the same way.
   */
  lemma LostWhileLinking()
    ensures var env := Env(p => p, "compile.json", [], [AppInfo("")]);
            var s := State(Sched(true, Watching({}), true, false, false, [], [{}], Linking({0}), true, false, 0, []), map[]);
            && Inv(env, s) && Enabled(s, LoaderCorrected(0, "loader.tmpl.js")) && KeepsInvalidation(s.sched)
            && !KeepsInvalidation(Step(env, s, LoaderCorrected(0, "loader.tmpl.js")).sched)
  {
  }

  /** With the corrected completions every event keeps the invariant and loses no invalidation. */
  lemma CorrectedKeepsInvalidation(env: Env, s: State, e: Event)
    requires Inv(env, s) && Enabled(s, e) && KeepsInvalidation(s.sched)
    ensures Inv(env, StepCorrected(env, s, e))
    ensures KeepsInvalidation(StepCorrected(env, s, e).sched)
  {
    match e {
      case DebounceTimer(p, f) =>
        HandlerKeepsSched(env, s.sched, s.debounce[p].kind, p, f);
      case HandlerDone(p, ok, f) =>
        SettleKeepsSched(env, s, p, ok, f, true);
      case _ =>
    }
  }

  // ----------------------------------------------------------- endless re-run

  /**
   * As written, a handler whose file changed while it ran is run again by
   * every completion: after settling it is running again, still marked for
   * restart, so the next completion runs it once more.
   */
  lemma RerunsForever()
    ensures var env := Env(p => p, "compile.json", [], []);
            var s := State(Sched(true, Watching({}), true, false, false, [], [], Idle, false, false, 0, []),
                           map["a.js" := Entry({Change}, Change, Running, true)]);
            var r := Step(env, s, HandlerDone("a.js", true, false));
            && Inv(env, s) && Enabled(s, HandlerDone("a.js", true, false))
            && "a.js" in r.debounce && r.debounce["a.js"] == s.debounce["a.js"]
  {
  }

  /**
   * With `restart` cleared, a handler marked for restart runs exactly once
   * more: its entry survives the first completion unmarked, and the next
   * completion deletes it unless the re-run's sync failed.
   */
  lemma RestartRunsOnce(env: Env, s: State, path: string, syncOk: bool, assetFound: bool, syncOk': bool, assetFound': bool)
    requires Inv(env, s) && Enabled(s, HandlerDone(path, syncOk, assetFound))
    requires s.debounce[path].restart && (s.debounce[path].phase.Syncing? ==> syncOk)
    ensures var r := StepCorrected(env, s, HandlerDone(path, syncOk, assetFound));
            && path in r.debounce && !r.debounce[path].restart
            && Inv(env, r) && Enabled(r, HandlerDone(path, syncOk', assetFound'))
            && ((r.debounce[path].phase.Syncing? && !syncOk') ||
                path !in StepCorrected(env, r, HandlerDone(path, syncOk', assetFound')).debounce)
  {
    SettleKeepsSched(env, s, path, syncOk, assetFound, true);
    var e := s.debounce[path];
    var t := if e.phase.Syncing? && e.phase.invalidate then Invalidate(s.sched) else s.sched;
    RunItTable(env, State(t, s.debounce[path := e.(restart := false)]), path, assetFound);
  }
}
