/** kts/GlaiKotlinScript: the compilation and evaluation configurations
    (their provided properties), the annotation handler that refines a
    compilation configuration, and script discovery over a directory tree. */
module KotlinScript {
  import opened Kotlin
  import opened Diagnostics
  import Env

  // ------------------------------------------------- provided properties

  /** A value handed to a script: the name of its class and its identity. */
  datatype Value = Value(className: string, text: string)

  /** ScriptRuntimeProperty: the digest of the properties, the named values
      provided to the script, and the runArgs properties object. */
  datatype RuntimeProperty = RuntimeProperty(digest: string, providedProperties: seq<(string, Value)>, runArgs: Value)

  /** The class of the runArgs property at compile time. */
  const PropertiesClass := "java.util.Properties"

  /** providedProperties of GlaiCompilationConfiguration: each property's
      name with its value's class, then runArgs as java.util.Properties. */
  function CompilationProperties(props: RuntimeProperty): seq<(string, string)>
  {
    Map(props.providedProperties, (p: (string, Value)) => (p.0, p.1.className)) + [("runArgs", PropertiesClass)]
  }

  /** providedProperties of GlaiEvaluationConfiguration: each property's
      name with its value, then runArgs with the runArgs object. */
  function EvaluationProperties(props: RuntimeProperty): seq<(string, Value)>
  {
    props.providedProperties + [("runArgs", props.runArgs)]
  }

  /** Both configurations list the runtime properties in order with runArgs
      last, and the class declared at compile time is the class of the value
      provided at evaluation. */
  lemma ProvidedPropertiesAgree(props: RuntimeProperty)
    ensures var c, e := CompilationProperties(props), EvaluationProperties(props);
      && |c| == |e| == |props.providedProperties| + 1
      && c[|c| - 1] == ("runArgs", PropertiesClass)
      && e[|e| - 1] == ("runArgs", props.runArgs)
      && forall i :: 0 <= i < |props.providedProperties| ==>
           c[i].0 == e[i].0 == props.providedProperties[i].0 &&
           c[i].1 == e[i].1.className
  {
  }

  // ---------------------------------------------------- script discovery

  /** A file is a script when its extension is "kts" or "kit". */
  predicate IsScriptFile(f: File)
  {
    Extension(f) == "kts" || Extension(f) == "kit"
  }

  /** File.findScripts() on the entry n found under directory path parent:
      nothing under a '.'-prefixed entry, the file itself when it is a
      script, and the union over a directory's entries otherwise. `toSet()`
      keeps first occurrences in listing order. */
  function FindScripts(n: Node, parent: seq<string>): seq<File>
    decreases n, 1
  {
    if Hidden(n.name) then []
    else match n
      case Directory(name, children) => Distinct(FindAll(children, parent + [name]))
      case Regular(_) => if IsScriptFile(FileOf(n, parent)) then [FileOf(n, parent)] else []
  }

  /** `listFiles().flatMap { it.findScripts() }`. */
  function FindAll(children: seq<Node>, parent: seq<string>): seq<File>
    decreases children, 0
  {
    if children == [] then [] else FindScripts(children[0], parent) + FindAll(children[1..], parent)
  }

  /** f lies under entry n, reached from parent through entries none of
      whose names start with '.'. An independent description of the walk. */
  predicate ReachableVisible(n: Node, parent: seq<string>, f: File)
    decreases n
  {
    !Hidden(n.name) &&
    match n
    case Regular(_) => f == FileOf(n, parent)
    case Directory(name, children) =>
      exists i :: 0 <= i < |children| && ReachableVisible(children[i], parent + [name], f)
  }

  /** findScripts finds exactly the scripts reachable without passing a
      '.'-prefixed entry. */
  lemma {:induction false} FindScriptsIff(n: Node, parent: seq<string>, f: File)
    ensures f in FindScripts(n, parent) <==> ReachableVisible(n, parent, f) && IsScriptFile(f)
    decreases n, 1
  {
    if !Hidden(n.name) && n.Directory? {
      FindAllIff(n.children, parent + [n.name], f);
    }
  }

  lemma {:induction false} FindAllIff(children: seq<Node>, parent: seq<string>, f: File)
    ensures f in FindAll(children, parent) <==>
      exists i :: 0 <= i < |children| && ReachableVisible(children[i], parent, f) && IsScriptFile(f)
    decreases children, 0
  {
    if children != [] {
      FindScriptsIff(children[0], parent, f);
      FindAllIff(children[1..], parent, f);
      if exists i :: 0 <= i < |children| && ReachableVisible(children[i], parent, f) && IsScriptFile(f) {
        var i :| 0 <= i < |children| && ReachableVisible(children[i], parent, f) && IsScriptFile(f);
        if i > 0 { assert children[1..][i - 1] == children[i]; }
      }
      if exists i :: 0 <= i < |children[1..]| && ReachableVisible(children[1..][i], parent, f) && IsScriptFile(f) {
        var i :| 0 <= i < |children[1..]| && ReachableVisible(children[1..][i], parent, f) && IsScriptFile(f);
        assert children[i + 1] == children[1..][i];
      }
    }
  }

  /** Everything reachable this way sits below parent, and no directory on
      the way, nor the file itself, has a '.'-prefixed name. */
  lemma {:induction false} ReachableVisibleShape(n: Node, parent: seq<string>, f: File)
    requires ReachableVisible(n, parent, f)
    ensures |f.parent| >= |parent| && f.parent[..|parent|] == parent
    ensures forall k :: |parent| <= k < |f.parent| ==> !Hidden(f.parent[k])
    ensures !Hidden(f.name)
    decreases n
  {
    if n.Directory? {
      var i :| 0 <= i < |n.children| && ReachableVisible(n.children[i], parent + [n.name], f);
      ReachableVisibleShape(n.children[i], parent + [n.name], f);
      assert f.parent[..|parent|] == (parent + [n.name])[..|parent|];
      assert f.parent[|parent|] == n.name;
    }
  }

  /** Every script found is a .kts or .kit file below parent and never under
      a '.'-prefixed entry, and each is found once. */
  lemma FindScriptsSound(n: Node, parent: seq<string>)
    ensures NoDuplicates(FindScripts(n, parent))
    ensures forall f :: f in FindScripts(n, parent) ==>
      && IsScriptFile(f) && !Hidden(f.name)
      && |f.parent| >= |parent| && f.parent[..|parent|] == parent
      && forall k :: |parent| <= k < |f.parent| ==> !Hidden(f.parent[k])
  {
    forall f | f in FindScripts(n, parent)
      ensures IsScriptFile(f) && !Hidden(f.name)
      ensures |f.parent| >= |parent| && f.parent[..|parent|] == parent
      ensures forall k :: |parent| <= k < |f.parent| ==> !Hidden(f.parent[k])
    {
      FindScriptsIff(n, parent, f);
      ReachableVisibleShape(n, parent, f);
    }
  }

  /** A '.'-prefixed entry prunes its whole subtree. */
  lemma HiddenPruned(n: Node, parent: seq<string>)
    requires Hidden(n.name)
    ensures FindScripts(n, parent) == []
  {
  }

  /** A visible regular file is found alone exactly when it is a script. */
  lemma RegularFound(name: string, parent: seq<string>)
    requires !Hidden(name)
    ensures FindScripts(Regular(name), parent) ==
      (if IsScriptFile(File(parent, name)) then [File(parent, name)] else [])
  {
  }

  /** File.findInclude(script): on a directory, the scripts of its entries,
      whatever name was asked for; on anything else, the file itself when
      its name is the requested one, or is it plus ".kts". */
  function FindInclude(n: Node, parent: seq<string>, script: string): seq<File>
  {
    if n.Directory? then Distinct(FindAll(n.children, parent + [n.name]))
    else
      var f := FileOf(n, parent);
      if f.name == script || (NameWithoutExtension(f) == script && Extension(f) == "kts") then [f] else []
  }

  /** On a directory the requested name makes no difference: every include
      from the scripts folder resolves to the same list. */
  lemma FindIncludeIgnoresName(n: Node, parent: seq<string>, a: string, b: string)
    requires n.Directory?
    ensures FindInclude(n, parent, a) == FindInclude(n, parent, b)
    ensures !Hidden(n.name) ==> FindInclude(n, parent, a) == FindScripts(n, parent)
  {
  }

  /** On a file, the include matches exactly when the name is the requested
      one, or is the requested one plus ".kts". */
  lemma FindIncludeFile(name: string, parent: seq<string>, script: string)
    ensures FindInclude(Regular(name), parent, script) != [] <==>
      name == script || name == script + ".kts"
  {
    KtsNamed(parent, name, script);
  }

  /** A file is `script` as a .kts file exactly when its name is script
      plus ".kts". */
  lemma KtsNamed(parent: seq<string>, name: string, script: string)
    ensures var f := File(parent, name);
      NameWithoutExtension(f) == script && Extension(f) == "kts" <==> name == script + ".kts"
  {
    var f := File(parent, name);
    assert script + "." + "kts" == script + ".kts";
    if name == script + ".kts" {
      WithExtension(parent, script, "kts");
    }
    if NameWithoutExtension(f) == script && Extension(f) == "kts" {
      NameParts(f);
    }
  }

  /** A name made of a base, '.', and an extension without '.' splits back
      into the two. */
  lemma WithExtension(parent: seq<string>, base: string, ext: string)
    requires '.' !in ext
    ensures NameWithoutExtension(File(parent, base + "." + ext)) == base
    ensures Extension(File(parent, base + "." + ext)) == ext
  {
    var name := base + "." + ext;
    assert name[|base|] == '.' && name[|base| + 1..] == ext;
    LastDotAt(name, |base|);
    assert name[..|base|] == base;
  }

  /** When s[k] is a '.' and no '.' follows, it is the last one. */
  lemma LastDotAt(s: string, k: nat)
    requires k < |s| && s[k] == '.' && '.' !in s[k + 1..]
    ensures LastIndexOf(s, '.') == k
  {
  }

  /** `findInclude(name).firstOrNull()`. */
  function FirstOrNull(fs: seq<File>): Option<File>
  {
    if fs == [] then None else Some(fs[0])
  }

  // --------------------------------------------------- annotation handler

  /** The file annotations the handler is registered for. */
  datatype Annotation =
    | DependsOn(artifacts: seq<string>)
    | Repository(repositories: seq<string>)
    | Include(paths: seq<string>)
    | Import(plugins: seq<string>)
    | CompilerOptions(options: seq<string>)

  /** The parts of a ScriptCompilationConfiguration the handler touches. */
  datatype Config = Config(
    classpath: seq<string>, importScripts: seq<File>, defaultImports: seq<string>, compilerOptions: seq<string>)

  /** What the dependency resolver does with the DependsOn and Repository
      annotations: it returns a result, or it throws. */
  datatype Resolution = Resolved(result: Result<seq<string>>) | Threw(exception: Throwable)

  /** Everything processAnnotations consults besides the configuration: the
      collected annotations (absent when none were collected), the script's
      location id, the scripts folder under the data folder (a Regular node
      stands for a folder that is not a directory, or is missing), the
      resolver, and the plugin lookup and scanner loadImportFromPlugin uses. */
  datatype Context = Context(
    annotations: Option<seq<Annotation>>,
    config: Config,
    scriptId: Option<string>,
    folder: Node,
    folderParent: seq<string>,
    resolve: seq<Annotation> -> Resolution,
    plugins: Env.PluginLookup,
    scan: Env.Scanner,
    taboolibId: string)

  /** GlaiEnv.loadImportFromPlugin as the handler sees it: its cache never
      answers, so each call returns the plugin's imports afresh. */
  function LoadImport(ctx: Context): string -> seq<string>
  {
    (name: string) => Env.PluginImports(name, ctx.plugins, ctx.scan, ctx.taboolibId)
  }

  /** For each Include path, the first script findInclude gives, when there is one. */
  function IncludedSources(annotations: seq<Annotation>, folder: Node, folderParent: seq<string>): seq<File>
  {
    if annotations == [] then []
    else
      (if annotations[0].Include? then ResolvePaths(annotations[0].paths, folder, folderParent) else []) +
      IncludedSources(annotations[1..], folder, folderParent)
  }

  /** `paths.mapNotNull { findInclude(it).firstOrNull() }`. */
  function ResolvePaths(paths: seq<string>, folder: Node, folderParent: seq<string>): (r: seq<File>)
    ensures |r| <= |paths|
  {
    if paths == [] then []
    else
      var first := FirstOrNull(FindInclude(folder, folderParent, paths[0]));
      (if first.Some? then [first.value] else []) + ResolvePaths(paths[1..], folder, folderParent)
  }

  /** For each Import annotation, the imports of each plugin it names. */
  function ImportedPlugins(annotations: seq<Annotation>, pluginImports: string -> seq<string>): seq<string>
  {
    if annotations == [] then []
    else
      (if annotations[0].Import? then PluginImportsOf(annotations[0].plugins, pluginImports) else []) +
      ImportedPlugins(annotations[1..], pluginImports)
  }

  function PluginImportsOf(plugins: seq<string>, pluginImports: string -> seq<string>): seq<string>
  {
    if plugins == [] then [] else pluginImports(plugins[0]) + PluginImportsOf(plugins[1..], pluginImports)
  }

  /** For each CompilerOptions annotation, its options. */
  function CompileOptions(annotations: seq<Annotation>): seq<string>
  {
    if annotations == [] then []
    else
      (if annotations[0].CompilerOptions? then annotations[0].options else []) + CompileOptions(annotations[1..])
  }

  /** The annotations handed to the resolver: DependsOn and Repository. */
  function ResolverAnnotations(annotations: seq<Annotation>): (r: seq<Annotation>)
    ensures forall a :: a in r <==> a in annotations && (a.DependsOn? || a.Repository?)
  {
    Filter(annotations, (a: Annotation) => a.DependsOn? || a.Repository?)
  }

  /** updateClasspath(resolved): the resolved entries not already on the
      classpath are appended. */
  function UpdateClasspath(known: seq<string>, resolved: seq<string>): (r: seq<string>)
    ensures forall x :: x in r <==> x in known || x in resolved
  {
    known + Filter(resolved, (x: string) => x !in known)
  }

  /** The configuration builder block: the classpath updated, then each list
      appended when it is not empty. */
  function Refine(config: Config, resolved: seq<string>, sources: seq<File>, imports: seq<string>, options: seq<string>): Config
  {
    Config(
      UpdateClasspath(config.classpath, resolved),
      if sources != [] then config.importScripts + sources else config.importScripts,
      if imports != [] then config.defaultImports + imports else config.defaultImports,
      if options != [] then config.compilerOptions + options else config.compilerOptions)
  }

  /** GlaiCompilationConfigurationHandler.processAnnotations. The list of
      reported diagnostics it keeps is never added to, so a throwing
      resolver yields a failure with the exception's diagnostic alone. */
  function ProcessAnnotations(ctx: Context): Result<Config>
  {
    if ctx.annotations.None? || ctx.annotations.value == [] then Success(ctx.config, [])
    else
      var annotations := ctx.annotations.value;
      var sources := IncludedSources(annotations, ctx.folder, ctx.folderParent);
      var imports := ImportedPlugins(annotations, LoadImport(ctx));
      var options := CompileOptions(annotations);
      var resolution := ctx.resolve(ResolverAnnotations(annotations));
      var result := if resolution.Threw? then Failure([AsDiagnostic(resolution.exception, ctx.scriptId)])
                    else resolution.result;
      OnSuccess(result, (resolved: seq<string>) => Success(Refine(ctx.config, resolved, sources, imports, options), []))
  }

  /** Without collected annotations the configuration is returned unchanged. */
  lemma NoAnnotationsUnchanged(ctx: Context)
    requires ctx.annotations.None? || ctx.annotations == Some([])
    ensures ProcessAnnotations(ctx) == Success(ctx.config, [])
  {
  }

  /** On resolver success: the classpath gains exactly the resolved entries,
      each list grows by the annotations' entries in annotation order (and
      is untouched when there are none), and the resolver's reports are
      kept. */
  lemma ProcessAnnotationsSuccess(ctx: Context)
    requires ctx.annotations.Some? && ctx.annotations.value != []
    requires ctx.resolve(ResolverAnnotations(ctx.annotations.value)).Resolved?
    requires ctx.resolve(ResolverAnnotations(ctx.annotations.value)).result.Success?
    ensures var anns := ctx.annotations.value;
      var res := ctx.resolve(ResolverAnnotations(anns)).result;
      var r := ProcessAnnotations(ctx);
      && r.Success? && r.reports == res.reports
      && (forall x :: x in r.value.classpath <==> x in ctx.config.classpath || x in res.value)
      && r.value.importScripts == ctx.config.importScripts + IncludedSources(anns, ctx.folder, ctx.folderParent)
      && r.value.defaultImports == ctx.config.defaultImports + ImportedPlugins(anns, LoadImport(ctx))
      && r.value.compilerOptions == ctx.config.compilerOptions + CompileOptions(anns)
  {
  }

  /** A failing resolver's failure is passed on unchanged. */
  lemma ProcessAnnotationsResolverFailure(ctx: Context)
    requires ctx.annotations.Some? && ctx.annotations.value != []
    requires ctx.resolve(ResolverAnnotations(ctx.annotations.value)).Resolved?
    requires ctx.resolve(ResolverAnnotations(ctx.annotations.value)).result.Failure?
    ensures ProcessAnnotations(ctx) == Failure(ctx.resolve(ResolverAnnotations(ctx.annotations.value)).result.reports)
  {
  }

  /** A throwing resolver gives a failure carrying one ERROR diagnostic for
      the exception, located at the script. */
  lemma ProcessAnnotationsResolverThrows(ctx: Context)
    requires ctx.annotations.Some? && ctx.annotations.value != []
    requires ctx.resolve(ResolverAnnotations(ctx.annotations.value)).Threw?
    ensures var e := ctx.resolve(ResolverAnnotations(ctx.annotations.value)).exception;
      && ProcessAnnotations(ctx).Failure?
      && ProcessAnnotations(ctx).reports == [AsDiagnostic(e, ctx.scriptId)]
      && ProcessAnnotations(ctx).reports[0].severity == ERROR
      && ProcessAnnotations(ctx).reports[0].exception == Some(e)
  {
  }

  /** On a directory every Include path resolves to the same file, the
      first script found under it; when it holds none, every include is
      dropped. */
  lemma {:induction false} IncludesResolveAlike(paths: seq<string>, folder: Node, folderParent: seq<string>)
    requires folder.Directory?
    ensures var all, r := FindInclude(folder, folderParent, ""), ResolvePaths(paths, folder, folderParent);
      && |r| == (if all == [] then 0 else |paths|)
      && forall i :: 0 <= i < |r| ==> r[i] == all[0]
    decreases |paths|
  {
    if paths != [] {
      FindIncludeIgnoresName(folder, folderParent, paths[0], "");
      IncludesResolveAlike(paths[1..], folder, folderParent);
    }
  }
}
