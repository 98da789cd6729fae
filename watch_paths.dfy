/**
 * The pure parts of `qx.tool.cli.Watch`: the list of paths handed to the
 * file watcher, which of them survive `fs.stat`, how a changed file is
 * classified, and the file names an application's dependencies map to.
 *
 * `path.resolve` is the opaque `resolve` of the environment; `path.join`
 * is `a + "/" + b` (its normalisation is not modelled).
 */
module WatchPaths {
  import opened Wrappers
  import opened Strings

  /** The watcher's event types. */
  datatype Kind = Change | Add | Unlink

  /** A library as the analyser reports it. */
  datatype Library = Library(rootDir: string, sourcePath: string, resourcePath: string, themePath: string)

  /** What the maker knows about an application. */
  datatype AppInfo = AppInfo(bootPath: string)

  /** One dependency of an application: the class and the library the database finds for it. */
  datatype ClassDep = ClassDep(className: string, library: Library)

  /** The maker and analyser as the watcher sees them; none of this changes while watching. */
  datatype Env = Env(
    resolve: string -> string,
    /** `qx.tool.config.Compile.config.fileName`. */
    configFileName: string,
    libraries: seq<Library>,
    apps: seq<AppInfo>)

  /** What `fs.stat` followed by `correctCase` yields for a resolved directory. */
  datatype Stat = Found(corrected: string) | Missing | StatError

  function PathJoin(a: string, b: string): string
  {
    a + "/" + b
  }

  // ------------------------------------------------------------ path set

  /** Source, resource and theme directory of each library, in library order. */
  function LibraryDirs(libs: seq<Library>): (dirs: seq<string>)
    ensures |dirs| == 3 * |libs|
    ensures forall i :: 0 <= i < |libs| ==>
              && dirs[3 * i] == PathJoin(libs[i].rootDir, libs[i].sourcePath)
              && dirs[3 * i + 1] == PathJoin(libs[i].rootDir, libs[i].resourcePath)
              && dirs[3 * i + 2] == PathJoin(libs[i].rootDir, libs[i].themePath)
  {
    if libs == [] then []
    else
      var lib := libs[|libs| - 1];
      LibraryDirs(libs[..|libs| - 1])
        + [PathJoin(lib.rootDir, lib.sourcePath), PathJoin(lib.rootDir, lib.resourcePath), PathJoin(lib.rootDir, lib.themePath)]
  }

  /** The boot paths, one by one: each is added when it is set and not yet listed. */
  function AddBootPaths(dirs: seq<string>, boots: seq<string>): (r: seq<string>)
    ensures |dirs| <= |r| && r[..|dirs|] == dirs
    ensures forall i :: 0 <= i < |boots| && boots[i] != "" ==> boots[i] in r
    ensures forall j :: |dirs| <= j < |r| ==> r[j] != "" && r[j] in boots && r[j] !in dirs
    ensures forall j, k :: |dirs| <= j < k < |r| ==> r[j] != r[k]
  {
    if boots == [] then dirs
    else
      var d := AddBootPaths(dirs, boots[..|boots| - 1]);
      var b := boots[|boots| - 1];
      if b != "" && b !in d then d + [b] else d
  }

  function BootPaths(apps: seq<AppInfo>): (boots: seq<string>)
    ensures |boots| == |apps| && forall i :: 0 <= i < |apps| ==> boots[i] == apps[i].bootPath
  {
    seq(|apps|, i requires 0 <= i < |apps| => apps[i].bootPath)
  }

  /** The paths `start` hands to `fs.stat`: the two config files, the library directories, then the boot paths. */
  function WatchDirs(env: Env): seq<string>
  {
    AddBootPaths([env.configFileName, "compile.js"] + LibraryDirs(env.libraries), BootPaths(env.apps))
  }

  /**
   * The directories confirmed by `fs.stat`: `None` when some stat fails with
   * anything but ENOENT (the promise rejects and no watcher is created).
   */
  function Confirmed(resolve: string -> string, stat: string -> Stat, dirs: seq<string>): Option<set<string>>
  {
    if dirs == [] then Some({})
    else
      match Confirmed(resolve, stat, dirs[..|dirs| - 1])
      case None => None
      case Some(c) =>
        match stat(resolve(dirs[|dirs| - 1]))
        case StatError => None
        case Missing => Some(c)
        case Found(d) => Some(c + {d})
  }

  // ------------------------------------------------------- classification

  /** `configFilenames.find(str => str == path)` is truthy: the path is listed and not empty. */
  predicate IsConfigFile(configFilenames: seq<string>, path: string)
  {
    path != "" && path in configFilenames
  }

  /** One application is out of date: the path is a known dependency, or lies under its resolved boot path. */
  predicate AppInvalidated(resolve: string -> string, dependsOn: set<string>, app: AppInfo, path: string)
  {
    path in dependsOn || (app.bootPath != "" && StartsWith(path, resolve(app.bootPath)))
  }

  /** The flag the `forEach` over the first `n` applications leaves set. */
  function InvalidatesUpTo(env: Env, dependsOn: seq<set<string>>, path: string, n: nat): bool
    requires n <= |env.apps| && |dependsOn| == |env.apps|
  {
    if n == 0 then false
    else InvalidatesUpTo(env, dependsOn, path, n - 1) || AppInvalidated(env.resolve, dependsOn[n - 1], env.apps[n - 1], path)
  }

  function Invalidates(env: Env, dependsOn: seq<set<string>>, path: string): bool
    requires |dependsOn| == |env.apps|
  {
    InvalidatesUpTo(env, dependsOn, path, |env.apps|)
  }

  /** The path lies under the resolved resource or theme directory of a library. */
  predicate UnderAssets(resolve: string -> string, lib: Library, path: string)
  {
    || StartsWith(path, resolve(PathJoin(lib.rootDir, lib.resourcePath)))
    || StartsWith(path, resolve(PathJoin(lib.rootDir, lib.themePath)))
  }

  predicate IsResource(env: Env, path: string)
  {
    exists i :: 0 <= i < |env.libraries| && UnderAssets(env.resolve, env.libraries[i], path)
  }

  /** The handler awaits `asset.sync` exactly for a non-`unlink` event on a known asset under a resource or theme directory. */
  predicate NeedsSync(env: Env, kind: Kind, path: string, assetFound: bool)
  {
    IsResource(env, path) && assetFound && kind != Unlink
  }

  // ---------------------------------------------------------- dependencies

  /** `path.resolve(root, sourcePath, ...className.split(".")) + ".js"`. */
  function DependencyFile(resolve: string -> string, dep: ClassDep): string
  {
    resolve(Join([dep.library.rootDir, dep.library.sourcePath] + Split(dep.className, '.'), '/')) + ".js"
  }

  /** The keys the `forEach` over an application's dependencies puts into `dependsOn`. */
  function DependencyFiles(resolve: string -> string, deps: seq<ClassDep>): set<string>
  {
    if deps == [] then {}
    else DependencyFiles(resolve, deps[..|deps| - 1]) + {DependencyFile(resolve, deps[|deps| - 1])}
  }

  // ---------------------------------------------------------------- lemmas

  /** The path list starts with the two config files, then every library directory, and holds every set boot path. */
  lemma WatchDirsContents(env: Env)
    ensures var dirs := WatchDirs(env);
            && |dirs| >= 2 + 3 * |env.libraries|
            && dirs[0] == env.configFileName && dirs[1] == "compile.js"
            && dirs[2..2 + 3 * |env.libraries|] == LibraryDirs(env.libraries)
            && (forall i :: 0 <= i < |env.apps| && env.apps[i].bootPath != "" ==> env.apps[i].bootPath in dirs)
            && (forall j :: 2 + 3 * |env.libraries| <= j < |dirs| ==>
                  dirs[j] != "" && dirs[j] in BootPaths(env.apps))
  {
    var base := [env.configFileName, "compile.js"] + LibraryDirs(env.libraries);
    var dirs := WatchDirs(env);
    assert dirs[..|base|] == base;
    assert dirs[2..2 + 3 * |env.libraries|] == base[2..];
    var boots := BootPaths(env.apps);
    forall i | 0 <= i < |env.apps| && env.apps[i].bootPath != ""
      ensures env.apps[i].bootPath in dirs
    {
      assert boots[i] == env.apps[i].bootPath;
    }
  }

  /** Only a stat error other than ENOENT makes the path set fail. */
  lemma {:induction false} ConfirmedFails(resolve: string -> string, stat: string -> Stat, dirs: seq<string>)
    ensures Confirmed(resolve, stat, dirs).None? <==> exists i :: 0 <= i < |dirs| && stat(resolve(dirs[i])).StatError?
  {
    if dirs != [] {
      var init := dirs[..|dirs| - 1];
      ConfirmedFails(resolve, stat, init);
      if Confirmed(resolve, stat, init).None? {
        var i :| 0 <= i < |init| && stat(resolve(init[i])).StatError?;
        assert dirs[i] == init[i];
      } else if exists i :: 0 <= i < |dirs| && stat(resolve(dirs[i])).StatError? {
        var i :| 0 <= i < |dirs| && stat(resolve(dirs[i])).StatError?;
        forall j | 0 <= j < |init|
          ensures !stat(resolve(dirs[j])).StatError?
        {
          assert init[j] == dirs[j];
        }
      }
    }
  }

  /** On success the watched set holds exactly the corrected names of the directories that exist: missing ones are dropped. */
  lemma {:induction false} ConfirmedHolds(resolve: string -> string, stat: string -> Stat, dirs: seq<string>, c: string)
    requires Confirmed(resolve, stat, dirs).Some?
    ensures c in Confirmed(resolve, stat, dirs).value <==> exists i :: 0 <= i < |dirs| && stat(resolve(dirs[i])) == Found(c)
  {
    if dirs != [] {
      var init := dirs[..|dirs| - 1];
      ConfirmedHolds(resolve, stat, init, c);
      if exists i :: 0 <= i < |init| && stat(resolve(init[i])) == Found(c) {
        var i :| 0 <= i < |init| && stat(resolve(init[i])) == Found(c);
        assert dirs[i] == init[i];
      }
      if exists i :: 0 <= i < |dirs| && stat(resolve(dirs[i])) == Found(c) {
        var i :| 0 <= i < |dirs| && stat(resolve(dirs[i])) == Found(c);
        if i < |init| {
          assert init[i] == dirs[i];
        }
      }
    }
  }

  /** The `forEach` flag is set exactly when some application is invalidated. */
  lemma {:induction false} InvalidatesSome(env: Env, dependsOn: seq<set<string>>, path: string, n: nat)
    requires n <= |env.apps| && |dependsOn| == |env.apps|
    ensures InvalidatesUpTo(env, dependsOn, path, n)
            <==> exists i :: 0 <= i < n && AppInvalidated(env.resolve, dependsOn[i], env.apps[i], path)
  {
    if n > 0 {
      InvalidatesSome(env, dependsOn, path, n - 1);
    }
  }

  /** `dependsOn` holds exactly the files of the listed dependencies. */
  lemma {:induction false} DependencyFilesOf(resolve: string -> string, deps: seq<ClassDep>, f: string)
    ensures f in DependencyFiles(resolve, deps) <==> exists i :: 0 <= i < |deps| && DependencyFile(resolve, deps[i]) == f
  {
    if deps != [] {
      var init := deps[..|deps| - 1];
      DependencyFilesOf(resolve, init, f);
      if exists i :: 0 <= i < |init| && DependencyFile(resolve, init[i]) == f {
        var i :| 0 <= i < |init| && DependencyFile(resolve, init[i]) == f;
        assert deps[i] == init[i];
      }
      if exists i :: 0 <= i < |deps| && DependencyFile(resolve, deps[i]) == f {
        var i :| 0 <= i < |deps| && DependencyFile(resolve, deps[i]) == f;
        if i < |init| {
          assert init[i] == deps[i];
        }
      }
    }
  }

  /** A class `a.b.C` of a library maps to `<root>/<source>/a/b/C`, resolved, plus `.js`. */
  lemma DependencyFileOfClass(resolve: string -> string, lib: Library, parts: seq<string>)
    requires |parts| >= 1 && forall i :: 0 <= i < |parts| ==> '.' !in parts[i]
    ensures DependencyFile(resolve, ClassDep(Join(parts, '.'), lib))
            == resolve(Join([lib.rootDir, lib.sourcePath] + parts, '/')) + ".js"
  {
    SplitJoin(parts, '.');
  }
}
