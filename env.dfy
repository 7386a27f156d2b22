/** GlaiEnv: the import lists handed to every script compilation. Class
    names come from a classpath scanner (a parameter here); what is
    modelled is how they become package wildcards, how a plugin import spec
    is parsed, and the shared globalImports list and pluginImports cache. */
module Env {
  import opened Kotlin

  /** FastClasspathScanner(specs).scan().namesOfAllClasses, optionally with
      a plugin's class loader added. */
  type Scanner = (seq<string>, Option<string>) -> seq<string>

  /** A loaded plugin: the name of its main class and its class loader. */
  datatype Plugin = Plugin(className: string, classLoader: string)

  /** What Bukkit's plugin manager returns for a plugin name. */
  type PluginLookup = string -> Option<Plugin>

  /** `filter { it.isNotBlank() }` over lines. */
  function NonBlank(lines: seq<string>): (r: seq<string>)
    ensures forall l :: l in r <==> l in lines && !IsBlank(l)
    ensures IsSubsequence(r, lines)
    ensures forall l :: multiset(r)[l] == if IsBlank(l) then 0 else multiset(lines)[l]
  {
    FilterCount(lines, (l: string) => !IsBlank(l));
    Filter(lines, (l: string) => !IsBlank(l))
  }

  /** The package a class name denotes: the text before its last '.', or
      the whole name when it has none. */
  function PackageOf(className: string): (p: string)
    ensures '.' in className ==> StartsWith(className, p + ".") && |p| < |className|
    ensures '.' in className ==> '.' !in className[|p| + 1..]
    ensures '.' !in className ==> p == className
  {
    if '.' in className then
      SplitAtLast(className, '.');
      assert className[..|SubstringBeforeLast(className, '.') + "."|] == SubstringBeforeLast(className, '.') + ".";
      SubstringBeforeLast(className, '.')
    else
      SplitAtLastAbsent(className, '.', "");
      SubstringBeforeLast(className, '.')
  }

  /** `map { "$it.*" }`. */
  function Wildcards(packages: seq<string>): (r: seq<string>)
    ensures |r| == |packages|
    ensures forall i :: 0 <= i < |r| ==> r[i] == packages[i] + ".*"
  {
    Map(packages, (p: string) => p + ".*")
  }

  /** Appending ".*" keeps distinct packages distinct. */
  lemma WildcardsNoDuplicates(packages: seq<string>)
    requires NoDuplicates(packages)
    ensures NoDuplicates(Wildcards(packages))
  {
    var r := Wildcards(packages);
    forall i, j | 0 <= i < j < |r|
      ensures r[i] != r[j]
    {
      if r[i] == r[j] {
        SuffixCancels(packages[i], packages[j], ".*");
      }
    }
  }

  lemma SuffixCancels(a: string, b: string, suffix: string)
    requires a + suffix == b + suffix
    ensures a == b
  {
    assert a == (a + suffix)[..|a|];
    assert b == (b + suffix)[..|b|];
  }

  /** The packages of the scanned classes, empty ones dropped, first
      occurrences kept in order. */
  function ImportPackages(classes: seq<string>): (r: seq<string>)
    ensures NoDuplicates(r)
    ensures forall p :: p in r <==> p != "" && exists c :: c in classes && p == PackageOf(c)
  {
    var packages := Map(classes, PackageOf);
    var r := Distinct(Filter(packages, (p: string) => p != ""));
    assert forall p :: p in packages <==> exists c :: c in classes && p == PackageOf(c) by {
      forall p | p in packages
        ensures exists c :: c in classes && p == PackageOf(c)
      {
        var i :| 0 <= i < |packages| && packages[i] == p;
        assert classes[i] in classes;
      }
      forall p | exists c :: c in classes && p == PackageOf(c)
        ensures p in packages
      {
        var c :| c in classes && p == PackageOf(c);
        var i :| 0 <= i < |classes| && classes[i] == c;
        assert packages[i] == p;
      }
    }
    r
  }

  /** loadImportsFromString(str, classLoader): a wildcard import for every
      package the scanner finds from the non-blank spec lines. */
  function LoadImportsFromString(str: seq<string>, classLoader: Option<string>, scan: Scanner): seq<string>
  {
    Wildcards(ImportPackages(scan(NonBlank(str), classLoader)))
  }

  /** Every import ends with ".*", none occurs twice, and they are exactly the
      non-empty packages of the classes found from the non-blank lines. */
  lemma LoadImportsShape(str: seq<string>, classLoader: Option<string>, scan: Scanner)
    ensures var r := LoadImportsFromString(str, classLoader, scan);
      && (forall i :: 0 <= i < |r| ==> EndsWith(r[i], ".*"))
      && NoDuplicates(r)
      && forall x :: x in r <==>
           exists c :: c in scan(NonBlank(str), classLoader) && PackageOf(c) != "" && x == PackageOf(c) + ".*"
  {
    var classes := scan(NonBlank(str), classLoader);
    var packages := ImportPackages(classes);
    var r := Wildcards(packages);
    WildcardsNoDuplicates(packages);
    forall i | 0 <= i < |r|
      ensures EndsWith(r[i], ".*")
    {
      assert r[i][|r[i]| - 2..] == ".*";
    }
    forall x
      ensures x in r <==> exists c :: c in classes && PackageOf(c) != "" && x == PackageOf(c) + ".*"
    {
      if x in r {
        var i :| 0 <= i < |r| && r[i] == x;
        assert packages[i] in packages;
      }
      if exists c :: c in classes && PackageOf(c) != "" && x == PackageOf(c) + ".*" {
        var c :| c in classes && PackageOf(c) != "" && x == PackageOf(c) + ".*";
        assert PackageOf(c) in packages;
        var i :| 0 <= i < |packages| && packages[i] == PackageOf(c);
        assert r[i] == x;
      }
    }
  }

  /** loadFunctionsFromFile: the non-blank lines of the file, in file order. */
  function LoadFunctionsFromFile(lines: seq<string>): (r: seq<string>)
    ensures forall l :: l in r <==> l in lines && !IsBlank(l)
    ensures IsSubsequence(r, lines)
    ensures forall l :: multiset(r)[l] == if IsBlank(l) then 0 else multiset(lines)[l]
  {
    NonBlank(lines)
  }

  /** The package imported by default for a plugin: for TabooLib's platform
      main classes the text before the first ".<taboolibId>", otherwise the
      package of the main class. */
  function MainPackage(javaName: string, taboolibId: string): (main: string)
    ensures IsTabooLibMain(javaName, taboolibId) && Contains(javaName, "." + taboolibId) ==>
      StartsWith(javaName, main + "." + taboolibId) &&
      forall j :: 0 <= j < |main| ==> !OccursAt(javaName, "." + taboolibId, j)
    ensures IsTabooLibMain(javaName, taboolibId) && !Contains(javaName, "." + taboolibId) ==> main == javaName
    ensures !IsTabooLibMain(javaName, taboolibId) ==> main == PackageOf(javaName)
  {
    if IsTabooLibMain(javaName, taboolibId) then SubstringBefore(javaName, "." + taboolibId)
    else SubstringBeforeLast(javaName, '.')
  }

  /** The main class is TabooLib's Bukkit or Bungee platform class. */
  predicate IsTabooLibMain(javaName: string, taboolibId: string)
  {
    EndsWith(javaName, taboolibId + ".platform.BukkitPlugin") ||
    EndsWith(javaName, taboolibId + ".platform.BungeePlugin")
  }

  /** The scanner specs for `plugin:pkg1,pkg2`: reject everything ("!!"),
      accept the main package and the extra packages, and exclude TabooLib's
      relocated copy under the main package. */
  function PluginSpecs(name: string, plugin: Plugin, taboolibId: string): seq<string>
  {
    var args := Split(name, ':');
    var main := MainPackage(plugin.className, taboolibId);
    var extra := if |args| > 1 then Split(args[1], ',') else [];
    ["!!", main] + extra + ["-" + main + "." + taboolibId]
  }

  /** What loadImportFromPlugin(name) computes when the cache is not hit:
      nothing for an unknown plugin, otherwise the imports scanned from the
      plugin's class loader. */
  function PluginImports(name: string, plugins: PluginLookup, scan: Scanner, taboolibId: string): seq<string>
  {
    var args := Split(name, ':');
    match plugins(args[0])
    case None => []
    case Some(plugin) =>
      LoadImportsFromString(PluginSpecs(name, plugin, taboolibId), Some(plugin.classLoader), scan)
  }

  /** `plugin:pkg1,pkg2`: the part before the ':' names the plugin, and the
      part after it lists the extra packages. */
  lemma PluginSpecPackages(plugin: string, packages: string, p: Plugin, taboolibId: string)
    requires ':' !in plugin && ':' !in packages
    ensures var name := plugin + ":" + packages;
      && Split(name, ':')[0] == plugin
      && PluginSpecs(name, p, taboolibId) ==
         ["!!", MainPackage(p.className, taboolibId)] + Split(packages, ',') +
         ["-" + MainPackage(p.className, taboolibId) + "." + taboolibId]
  {
    assert plugin + ":" + packages == plugin + [':'] + packages;
    SplitCons(plugin, ':', packages);
  }

  /** Only the part before the first ':' names the plugin, and only the
      part after it, up to a second ':', lists extra packages: further
      parts are ignored. */
  lemma PluginSpecParts(plugin: string, packages: string, ignored: string, p: Plugin, taboolibId: string)
    requires ':' !in plugin && ':' !in packages
    ensures var name := plugin + ":" + packages + ":" + ignored;
      && Split(name, ':')[0] == plugin
      && PluginSpecs(name, p, taboolibId) ==
         ["!!", MainPackage(p.className, taboolibId)] + Split(packages, ',') +
         ["-" + MainPackage(p.className, taboolibId) + "." + taboolibId]
  {
    var name := plugin + ":" + packages + ":" + ignored;
    assert name == plugin + [':'] + (packages + [':'] + ignored);
    SplitCons(plugin, ':', packages + [':'] + ignored);
    SplitCons(packages, ':', ignored);
  }

  /** A bare plugin name has no extra packages: the specs are the main
      package and TabooLib's exclusion only. */
  lemma PluginSpecBare(plugin: string, p: Plugin, taboolibId: string)
    requires ':' !in plugin
    ensures PluginSpecs(plugin, p, taboolibId) ==
      ["!!", MainPackage(p.className, taboolibId), "-" + MainPackage(p.className, taboolibId) + "." + taboolibId]
  {
  }

  /** An unknown plugin gives no imports. */
  lemma UnknownPluginNoImports(name: string, plugins: PluginLookup, scan: Scanner, taboolibId: string)
    requires plugins(Split(name, ':')[0]).None?
    ensures PluginImports(name, plugins, scan, taboolibId) == []
  {
  }

  /** A Java object as ConcurrentHashMap.contains compares it. */
  datatype JavaObject = JString(s: string) | JList(items: seq<string>)

  /** ConcurrentHashMap.contains(value): some stored value equals it. */
  predicate ContainsValue(m: map<string, seq<string>>, value: JavaObject)
  {
    exists k :: k in m && JList(m[k]) == value
  }

  /** The pluginImports lookup compares a String with stored Lists, so it
      never succeeds, whatever the cache holds. */
  lemma CacheNeverHits(m: map<string, seq<string>>, name: string)
    ensures !ContainsValue(m, JString(name))
  {
  }

  /** The environment's shared state. `outFiles` holds what has been
      written under the plugin's out/ folder, by file name. */
  class GlaiEnv {
    var pluginImports: map<string, seq<string>>
    var globalImports: seq<string>
    var outFiles: map<string, string>

    constructor ()
      ensures pluginImports == map[] && globalImports == [] && outFiles == map[]
    {
      pluginImports := map[];
      globalImports := [];
      outFiles := map[];
    }

    /** setupGlobalImports: the cache is emptied, and the global list becomes
        the default imports followed by the default functions; the imports
        alone are written to out/default.imports. */
    method SetupGlobalImports(importLines: seq<string>, functionLines: seq<string>, scan: Scanner)
      modifies this
      ensures pluginImports == map[]
      ensures globalImports == LoadImportsFromString(importLines, None, scan) + LoadFunctionsFromFile(functionLines)
      ensures outFiles == old(outFiles)["default.imports" := Join(LoadImportsFromString(importLines, None, scan), "\n")]
    {
      var imports := LoadImportsFromString(importLines, None, scan);
      var functions := LoadFunctionsFromFile(functionLines);
      pluginImports := map[];
      globalImports := [];
      globalImports := globalImports + imports;
      assert globalImports == imports;
      outFiles := outFiles["default.imports" := Join(globalImports, "\n")];
      globalImports := globalImports + functions;
    }

    /** loadImportFromPlugin(name). A non-empty result is written to
        out/<name>.imports and cached under name; the cache lookup in front
        never hits. */
    method LoadImportFromPlugin(name: string, plugins: PluginLookup, scan: Scanner, taboolibId: string)
      returns (imports: seq<string>)
      modifies this
      ensures imports == PluginImports(name, plugins, scan, taboolibId)
      ensures imports != [] ==> pluginImports == old(pluginImports)[name := imports]
      ensures imports != [] ==> outFiles == old(outFiles)[name + ".imports" := Join(imports, "\n")]
      ensures imports == [] ==> pluginImports == old(pluginImports) && outFiles == old(outFiles)
      ensures globalImports == old(globalImports)
    {
      CacheNeverHits(pluginImports, name);
      if ContainsValue(pluginImports, JString(name)) {
        assert false;
      }
      var args := Split(name, ':');
      var plugin := plugins(args[0]);
      if plugin.None? {
        return [];
      }
      var javaName := plugin.value.className;
      var main := MainPackage(javaName, taboolibId);
      var extra := if |args| > 1 then Split(args[1], ',') else [];
      imports := LoadImportsFromString(["!!", main] + extra + ["-" + main + "." + taboolibId],
        Some(plugin.value.classLoader), scan);
      if imports != [] {
        outFiles := outFiles[name + ".imports" := Join(imports, "\n")];
        pluginImports := pluginImports[name := imports];
      }
    }
  }
}
