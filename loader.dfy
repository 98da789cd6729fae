/**
 * The node loader's `qx.$$loader.decodeUris` and `qx.$$loader.importPackageData`.
 *
 * `decodeUris` turns the compressed script URIs of a package into loadable
 * ones; `importPackageData` merges a package's resources, locales and
 * translations into the global tables of the running application.
 *
 * Objects used as dictionaries are maps; `key in libs` is membership in the
 * set of library names. The value type `V` stands for whatever the tables
 * hold (resource descriptors, locale and translation strings).
 */
module Loader {
  import opened Wrappers
  import opened Strings

  // ----------------------------------------------------------- decodeUris

  /** `if (!pathName) pathName = this.transpiledPath`: an absent or empty path falls back. */
  function EffectivePath(pathName: Option<string>, transpiledPath: string): (p: string)
    ensures pathName.None? || pathName == Some("") ==> p == transpiledPath
    ensures pathName.Some? && pathName.value != "" ==> p == pathName.value
  {
    match pathName
    case Some(p) => if p == "" then transpiledPath else p
    case None => transpiledPath
  }

  /** One compressed URI before the prefix is added; `None` when the entry is skipped. */
  function DecodeOne(libs: set<string>, pathName: string, compressed: string): Option<string>
  {
    var uri := Split(compressed, ':');
    if |uri| == 2 && uri[0] in libs then
      if uri[0] == "__out__" then Some("./" + uri[1]) else Some(pathName + "/" + uri[1])
    else if uri[0] == "__external__" then None
    else Some(compressed)
  }

  /** The whole list: each kept entry, in order, behind the global prefix. */
  function DecodeAll(libs: set<string>, pathName: string, prefix: string, compressed: seq<string>): (uris: seq<string>)
    ensures |uris| <= |compressed|
    ensures forall i :: 0 <= i < |uris| ==> StartsWith(uris[i], prefix)
  {
    if compressed == [] then []
    else
      var init := DecodeAll(libs, pathName, prefix, compressed[..|compressed| - 1]);
      match DecodeOne(libs, pathName, compressed[|compressed| - 1])
      case Some(euri) =>
        assert StartsWith(prefix + euri, prefix) by { assert (prefix + euri)[..|prefix|] == prefix; }
        init + [prefix + euri]
      case None => init
  }

  // ---------------------------------------------------- importPackageData

  /** The fields of a package's data map; `None` for a missing (falsy) field. */
  datatype PackageData<V> = PackageData(
    resources: Option<map<string, V>>,
    locales: Option<map<string, map<string, V>>>,
    translations: Option<map<string, map<string, V>>>)

  /** `for (k in incoming) table[k] = incoming[k]`. */
  function Overwrite<V>(table: map<string, V>, incoming: map<string, V>): map<string, V>
  {
    table + incoming
  }

  /** A language not yet present is installed whole; an existing one is overwritten key by key. */
  function MergeCatalogs<V>(tables: map<string, map<string, V>>, incoming: map<string, map<string, V>>): map<string, map<string, V>>
  {
    map lang | lang in tables.Keys + incoming.Keys ::
      if lang in incoming then
        (if lang in tables then Overwrite(tables[lang], incoming[lang]) else incoming[lang])
      else tables[lang]
  }

  function ImportOptional<V>(table: map<string, V>, incoming: Option<map<string, V>>): map<string, V>
  {
    match incoming
    case Some(m) => Overwrite(table, m)
    case None => table
  }

  function ImportCatalogs<V>(tables: map<string, map<string, V>>, incoming: Option<map<string, map<string, V>>>): map<string, map<string, V>>
  {
    match incoming
    case Some(m) => MergeCatalogs(tables, m)
    case None => tables
  }

  /** The part of `m` whose keys are in `keys`. */
  function Restrict<K, V>(m: map<K, V>, keys: set<K>): (r: map<K, V>)
    ensures r.Keys == m.Keys * keys
    ensures forall k :: k in r ==> r[k] == m[k]
  {
    map k | k in m.Keys * keys :: m[k]
  }

  // ------------------------------------------------------------ the loader

  /** The global state the loader reads and writes. */
  class QxLoader<V(==)> {
    /** The names of `qx.$$libraries`. */
    var libraries: set<string>
    var transpiledPath: string
    /** `qxloadPrefixUrl`. */
    var prefixUrl: string
    /** `qx.$$resources`. */
    var resources: map<string, V>
    /** `qx.$$locales`. */
    var locales: map<string, map<string, V>>
    /** `qx.$$translations`. */
    var translations: map<string, map<string, V>>

    constructor(libraries: set<string>, transpiledPath: string, prefixUrl: string)
      ensures this.libraries == libraries && this.transpiledPath == transpiledPath && this.prefixUrl == prefixUrl
      ensures resources == map[] && locales == map[] && translations == map[]
    {
      this.libraries := libraries;
      this.transpiledPath := transpiledPath;
      this.prefixUrl := prefixUrl;
      resources := map[];
      locales := map[];
      translations := map[];
    }

    /** Expands the compressed URIs of a package. */
    method DecodeUris(compressedUris: seq<string>, pathName: Option<string>) returns (uris: seq<string>)
      ensures uris == DecodeAll(libraries, EffectivePath(pathName, transpiledPath), prefixUrl, compressedUris)
    {
      var path := transpiledPath;
      if pathName.Some? && pathName.value != "" {
        path := pathName.value;
      }
      var libs := libraries;
      uris := [];
      var i := 0;
      while i < |compressedUris|
        invariant 0 <= i <= |compressedUris|
        invariant uris == DecodeAll(libs, path, prefixUrl, compressedUris[..i])
      {
        assert compressedUris[..i + 1][..i] == compressedUris[..i];
        var uri := Split(compressedUris[i], ':');
        var euri;
        if |uri| == 2 && uri[0] in libs {
          if uri[0] == "__out__" {
            euri := "./" + uri[1];
          } else {
            euri := path + "/" + uri[1];
          }
        } else if uri[0] == "__external__" {
          i := i + 1;
          continue;
        } else {
          euri := compressedUris[i];
        }
        uris := uris + [prefixUrl + euri];
        i := i + 1;
      }
      assert compressedUris[..i] == compressedUris;
    }

    /**
     * Merges a package's data into the global tables and hands the data map
     * to the callback, when there is one (returned as `callbackArg`).
     */
    method ImportPackageData(dataMap: PackageData<V>, hasCallback: bool) returns (callbackArg: Option<PackageData<V>>)
      modifies this
      ensures resources == ImportOptional(old(resources), dataMap.resources)
      ensures locales == ImportCatalogs(old(locales), dataMap.locales)
      ensures translations == ImportCatalogs(old(translations), dataMap.translations)
      ensures libraries == old(libraries) && transpiledPath == old(transpiledPath) && prefixUrl == old(prefixUrl)
      ensures callbackArg == (if hasCallback then Some(dataMap) else None)
    {
      if dataMap.resources.Some? {
        resources := OverwriteInPlace(resources, dataMap.resources.value);
      }
      if dataMap.locales.Some? {
        locales := MergeInPlace(locales, dataMap.locales.value);
      }
      if dataMap.translations.Some? {
        translations := MergeInPlace(translations, dataMap.translations.value);
      }
      callbackArg := if hasCallback then Some(dataMap) else None;
    }
  }

  /** The `for (k in incoming)` loop that assigns entry by entry. */
  method OverwriteInPlace<V>(table: map<string, V>, incoming: map<string, V>) returns (r: map<string, V>)
    ensures r == Overwrite(table, incoming)
  {
    r := table;
    var todo := incoming.Keys;
    while todo != {}
      invariant todo <= incoming.Keys
      invariant r == table + Restrict(incoming, incoming.Keys - todo)
      decreases todo
    {
      var k :| k in todo;
      OverwriteOneMore(table, incoming, incoming.Keys - todo, k);
      r := r[k := incoming[k]];
      todo := todo - {k};
      assert incoming.Keys - todo == (incoming.Keys - (todo + {k})) + {k};
    }
    assert Restrict(incoming, incoming.Keys) == incoming;
  }

  lemma OverwriteOneMore<V>(table: map<string, V>, incoming: map<string, V>, done: set<string>, k: string)
    requires k in incoming
    ensures table + Restrict(incoming, done + {k}) == (table + Restrict(incoming, done))[k := incoming[k]]
  {
  }

  /** The `for (lang in incoming)` loop: install a new language, or merge key by key into the present one. */
  method MergeInPlace<V>(tables: map<string, map<string, V>>, incoming: map<string, map<string, V>>) returns (r: map<string, map<string, V>>)
    ensures r == MergeCatalogs(tables, incoming)
  {
    r := tables;
    var todo := incoming.Keys;
    while todo != {}
      invariant todo <= incoming.Keys
      invariant r == MergeCatalogs(tables, Restrict(incoming, incoming.Keys - todo))
      decreases todo
    {
      var lang :| lang in todo;
      var done := incoming.Keys - todo;
      MergeOneMore(tables, incoming, done, lang);
      if lang !in r {
        r := r[lang := incoming[lang]];
      } else {
        var merged := OverwriteInPlace(r[lang], incoming[lang]);
        r := r[lang := merged];
      }
      todo := todo - {lang};
      assert incoming.Keys - todo == done + {lang};
    }
    assert Restrict(incoming, incoming.Keys) == incoming;
  }

  lemma MergeOneMore<V>(tables: map<string, map<string, V>>, incoming: map<string, map<string, V>>, done: set<string>, lang: string)
    requires lang in incoming && lang !in done
    ensures var before := MergeCatalogs(tables, Restrict(incoming, done));
            && (lang in before <==> lang in tables)
            && (lang in tables ==> before[lang] == tables[lang])
            && MergeCatalogs(tables, Restrict(incoming, done + {lang}))
               == before[lang := if lang in tables then Overwrite(tables[lang], incoming[lang]) else incoming[lang]]
  {
  }

  // --------------------------------------------------------------- lemmas

  /** Decoding a concatenation decodes each part: the output keeps the input order. */
  lemma {:induction false} DecodeAllAppend(libs: set<string>, pathName: string, prefix: string, xs: seq<string>, ys: seq<string>)
    ensures DecodeAll(libs, pathName, prefix, xs + ys)
            == DecodeAll(libs, pathName, prefix, xs) + DecodeAll(libs, pathName, prefix, ys)
    decreases |ys|
  {
    if ys == [] {
      assert xs + ys == xs;
    } else {
      var ys' := ys[..|ys| - 1];
      assert (xs + ys)[..|xs + ys| - 1] == xs + ys';
      DecodeAllAppend(libs, pathName, prefix, xs, ys');
    }
  }

  /** A single entry is kept, behind the prefix, exactly when DecodeOne keeps it. */
  lemma DecodeAllSingle(libs: set<string>, pathName: string, prefix: string, u: string)
    ensures DecodeAll(libs, pathName, prefix, [u])
            == (match DecodeOne(libs, pathName, u) case Some(e) => [prefix + e] case None => [])
  {
    assert [u][..0] == [];
  }

  /** An entry is dropped only when its first ':'-segment is `__external__` and the library rule does not apply. */
  lemma DecodeOneDropped(libs: set<string>, pathName: string, u: string)
    ensures var parts := Split(u, ':');
            DecodeOne(libs, pathName, u).None? <==> parts[0] == "__external__" && !(|parts| == 2 && parts[0] in libs)
  {
  }

  /** "lib:rest" for a known library becomes "./rest" for `__out__` and "pathName/rest" otherwise. */
  lemma LibraryUri(libs: set<string>, pathName: string, lib: string, rest: string)
    requires lib in libs && ':' !in lib && ':' !in rest
    ensures DecodeOne(libs, pathName, lib + ":" + rest)
            == Some(if lib == "__out__" then "./" + rest else pathName + "/" + rest)
  {
    SplitNoSeparator(lib, ':');
    SplitAfterSeparator(lib, ':', rest);
    assert lib + ":" + rest == lib + [':'] + rest;
  }

  /**
   * A URI that is not "lib:rest" for a known library, and does not start with
   * an `__external__` segment, is kept unchanged: a plain path, an unknown
   * prefix ("res:x.png") or more than two segments ("http://h:8080/x").
   */
  lemma PlainUri(libs: set<string>, pathName: string, u: string)
    requires var p := Split(u, ':'); !(|p| == 2 && p[0] in libs) && p[0] != "__external__"
    ensures DecodeOne(libs, pathName, u) == Some(u)
  {
  }

  /** In particular a URI without ':' is kept unchanged, unless it is `__external__` itself. */
  lemma NoColonUri(libs: set<string>, pathName: string, u: string)
    requires ':' !in u && u != "__external__"
    ensures DecodeOne(libs, pathName, u) == Some(u)
  {
    SplitNoSeparator(u, ':');
    PlainUri(libs, pathName, u);
  }

  /** Resources: every incoming key is overwritten, every other key keeps its value. */
  lemma OverwriteEntries<V>(table: map<string, V>, incoming: map<string, V>)
    ensures Overwrite(table, incoming).Keys == table.Keys + incoming.Keys
    ensures forall k :: k in incoming ==> Overwrite(table, incoming)[k] == incoming[k]
    ensures forall k :: k in table && k !in incoming ==> Overwrite(table, incoming)[k] == table[k]
  {
  }

  /** Locales and translations: a new language is installed whole, an existing one merged with incoming keys winning, and nothing else changes. */
  lemma MergeCatalogsEntries<V>(tables: map<string, map<string, V>>, incoming: map<string, map<string, V>>, lang: string)
    ensures var r := MergeCatalogs(tables, incoming);
            && (lang in r <==> lang in tables || lang in incoming)
            && (lang in incoming && lang !in tables ==> r[lang] == incoming[lang])
            && (lang in tables && lang !in incoming ==> r[lang] == tables[lang])
            && (lang in tables && lang in incoming ==>
                  && r[lang].Keys == tables[lang].Keys + incoming[lang].Keys
                  && (forall k :: k in incoming[lang] ==> r[lang][k] == incoming[lang][k])
                  && (forall k :: k in tables[lang] && k !in incoming[lang] ==> r[lang][k] == tables[lang][k]))
  {
  }

  /** Importing the same catalogs twice changes nothing more than importing them once. */
  lemma MergeCatalogsIdempotent<V>(tables: map<string, map<string, V>>, incoming: map<string, map<string, V>>)
    ensures MergeCatalogs(MergeCatalogs(tables, incoming), incoming) == MergeCatalogs(tables, incoming)
  {
    var once := MergeCatalogs(tables, incoming);
    var twice := MergeCatalogs(once, incoming);
    forall lang | lang in twice
      ensures twice[lang] == once[lang]
    {
      if lang in incoming && lang in tables {
        assert Overwrite(Overwrite(tables[lang], incoming[lang]), incoming[lang]) == Overwrite(tables[lang], incoming[lang]);
      } else if lang in incoming {
        assert Overwrite(incoming[lang], incoming[lang]) == incoming[lang];
      }
    }
  }
}
