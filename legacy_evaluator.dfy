/** The root-package GlaiEvaluator: the older cache format of two objects
    (the source digest, then the compiled script), evalFile and
    evalFileAndReport on top of it, and the startup walk over the scripts
    folder. The compile block submitted to the scheduler runs in place. */
module LegacyEvaluator {
  import opened Kotlin
  import opened Diagnostics
  import opened Serialization
  import KotlinScript
  import KtsEvaluator

  /** scriptingHost.compiler(file.toScriptSource(), GlaiKotlinScriptConfiguration()). */
  type Compiler = File -> Result<CompiledScript>

  /** scriptingHost.evaluator(script, GlaiScriptEvaluationConfiguration()). */
  type Evaluator = CompiledScript -> Result<EvaluationResult>

  /** What evalFile depends on besides its arguments. */
  datatype Host = Host(dataFolder: seq<string>, compiler: Compiler, evaluator: Evaluator)

  /** Where text goes: the server log written by info(), or a command
      sender. */
  class Sink {
    var lines: seq<string>

    constructor ()
      ensures lines == []
    {
      lines := [];
    }

    method Send(line: string)
      modifies this
      ensures lines == old(lines) + [line]
    {
      lines := lines + [line];
    }
  }

  /** scripts/.build/<name>.kit under the data folder. */
  function CacheFileOf(host: Host, f: File): File
  {
    KtsEvaluator.CacheFileOf(host.dataFolder, f)
  }

  /** The record evalFile writes: the digest, then the compiled script. */
  function Record(digest: string, compiled: CompiledScript): seq<Field>
  {
    [ObjField(Str(digest)), ObjField(Blob(compiled))]
  }

  // ------------------------------------------------------------ the cache

  /** evalCacheFile(f, digest): the evaluation result when the stored digest
      is the given one or no digest is given, None when it differs, or the
      exception reading raised. */
  function CacheSpec(files: map<File, seq<Field>>, f: File, digest: Option<string>, host: Host)
      : (r: Try<Option<Result<EvaluationResult>>>)
    ensures f !in files ==> r == Throw(FileNotFound)
    ensures digest.None? && r.Ok? ==> r.value.Some?
  {
    if f !in files then Throw(FileNotFound)
    else
      var data := files[f];
      var local := AsString(ReadObjectAt(data, 0));
      if local.Throw? then Throw(local.error)
      else if digest == Some(local.value) || digest.None? then
        var script := AsCompiledScript(ReadObjectAt(data, 1));
        if script.Throw? then Throw(script.error) else Ok(Some(host.evaluator(script.value)))
      else Ok(None)
  }

  /** The cache evaluates exactly when the file starts with a string equal
      to the digest (or no digest is asked for) followed by a compiled
      script, returns None exactly when the string differs from the digest,
      and raises otherwise. */
  lemma CacheSpecCases(files: map<File, seq<Field>>, f: File, digest: Option<string>, host: Host)
    requires f in files
    ensures var data, r := files[f], CacheSpec(files, f, digest, host);
      && (r == Ok(None) <==>
            |data| >= 1 && data[0].ObjField? && data[0].o.Str? && digest.Some? && digest.value != data[0].o.s)
      && (r.Ok? && r.value.Some? <==>
            |data| >= 2 && data[0].ObjField? && data[0].o.Str? &&
            (digest.None? || digest.value == data[0].o.s) && data[1].ObjField? && data[1].o.Blob?)
      && (r.Ok? && r.value.Some? ==> r.value.value == host.evaluator(data[1].o.script))
  {
  }

  /** What evalFile writes, evalCacheFile reads back: the same digest hits,
      so does no digest, and any other digest misses. */
  lemma RecordRoundTrip(files: map<File, seq<Field>>, f: File, digest: string, compiled: CompiledScript, host: Host)
    requires f in files && files[f] == Record(digest, compiled)
    ensures CacheSpec(files, f, Some(digest), host) == Ok(Some(host.evaluator(compiled)))
    ensures CacheSpec(files, f, None, host) == Ok(Some(host.evaluator(compiled)))
    ensures forall other :: other != digest ==> CacheSpec(files, f, Some(other), host) == Ok(None)
  {
  }

  /** evalCacheFile. */
  method EvalCacheFile(fs: FileSystem, f: File, digest: Option<string>, host: Host)
      returns (r: Try<Option<Result<EvaluationResult>>>)
    ensures r == CacheSpec(fs.files, f, digest, host)
  {
    var bytes := fs.ReadBytes(f);
    if bytes.Throw? {
      return Throw(bytes.error);
    }
    var input := new ObjectInputStream(bytes.value);
    var first := input.ReadObject();
    var local := AsString(first);
    if local.Throw? {
      return Throw(local.error);
    }
    if digest == Some(local.value) || digest.None? {
      var second := input.ReadObject();
      var script := AsCompiledScript(second);
      if script.Throw? {
        return Throw(script.error);
      }
      return Ok(Some(host.evaluator(script.value)));
    }
    return Ok(None);
  }

  // -------------------------------------------------------------- evalFile

  /** What evalFile does: an exception escaped it, or it returned after
      logging `logged`, with the future in state `completion` and the files
      as `files`. */
  datatype Outcome =
    | Raised(error: Failure)
    | Returned(logged: seq<string>, completion: Option<Result<EvaluationResult>>, files: map<File, seq<Field>>)

  /** The lines the compile block logs when notify is set: script-compile,
      then script-compile-success once compilation succeeded. */
  function CompileLines(f: File, notify: bool, host: Host): seq<string>
  {
    (if notify then [": " + f.name + " : script-compile"] else []) +
    (if notify && host.compiler(f).Success? then [": " + f.name + " : script-compile-success"] else [])
  }

  /** What the compile block completes the future with: the evaluation of
      the compiled script, or the compile failure. */
  function CompileResult(f: File, host: Host): Result<EvaluationResult>
  {
    var compiled := host.compiler(f);
    if compiled.Success? then host.evaluator(compiled.value) else Failure(compiled.reports)
  }

  /** The files after the compile block: the cache record is written when
      compilation succeeded and useCache is set. */
  function CompileFiles(files: map<File, seq<Field>>, f: File, digest: string, useCache: bool, host: Host)
      : map<File, seq<Field>>
  {
    var compiled := host.compiler(f);
    if useCache && compiled.Success? then files[CacheFileOf(host, f) := Record(digest, compiled.value)] else files
  }

  /** The compile path of evalFile. */
  function CompilePath(files: map<File, seq<Field>>, f: File, digest: string, useCache: bool, notify: bool, host: Host)
      : (o: Outcome)
    ensures o.Returned?
  {
    Returned(CompileLines(f, notify, host), Some(CompileResult(f, host)), CompileFiles(files, f, digest, useCache, host))
  }

  /** The files' cache record consulted by evalFile: only when it exists
      and useCache is set. */
  function Cached(files: map<File, seq<Field>>, f: File, digest: string, useCache: bool, host: Host)
      : Try<Option<Result<EvaluationResult>>>
  {
    var cacheFile := CacheFileOf(host, f);
    if cacheFile in files && useCache then CacheSpec(files, cacheFile, Some(digest), host) else Ok(None)
  }

  /** evalFile on a source file: the cache record when it hits, the compile
      path otherwise. */
  function SourcePath(files: map<File, seq<Field>>, f: File, digest: string, useCache: bool, notify: bool, host: Host)
      : Outcome
  {
    var cached := Cached(files, f, digest, useCache, host);
    if cached.Throw? then Raised(cached.error)
    else if cached.value.Some? then Returned([], cached.value, files)
    else CompilePath(files, f, digest, useCache, notify, host)
  }

  /** evalFile on a .kit file: the file itself is evaluated, with no digest
      to compare. */
  function KitPath(files: map<File, seq<Field>>, f: File, host: Host): Outcome
  {
    var r := CacheSpec(files, f, None, host);
    if r.Throw? then Raised(r.error) else Returned([], r.value, files)
  }

  /** evalFile(f, useCache, notify), where `digest` is the SHA-1 of f's
      content. */
  function EvalFileSpec(files: map<File, seq<Field>>, f: File, digest: string, useCache: bool, notify: bool, host: Host)
      : Outcome
  {
    if Extension(f) == "kit" then KitPath(files, f, host) else SourcePath(files, f, digest, useCache, notify, host)
  }

  /** The state after evalFile agrees with the outcome. */
  predicate Realizes(o: Outcome, thrown: Option<Failure>, logged0: seq<string>, logged: seq<string>,
                     completion: Option<Result<EvaluationResult>>, files0: map<File, seq<Field>>, files: map<File, seq<Field>>)
  {
    match o
    case Raised(e) => thrown == Some(e) && logged == logged0 && files == files0
    case Returned(l, c, fs) => thrown.None? && completion == c && logged == logged0 + l && files == fs
  }

  /** evalFile, proved against EvalFileSpec. */
  method EvalFile(fs: FileSystem, log: Sink, f: File, digest: string, useCache: bool, notify: bool, host: Host)
      returns (thrown: Option<Failure>, future: KtsEvaluator.Future)
    modifies fs, log
    ensures fresh(future)
    ensures Realizes(EvalFileSpec(old(fs.files), f, digest, useCache, notify, host), thrown, old(log.lines), log.lines,
      future.value, old(fs.files), fs.files)
  {
    future := new KtsEvaluator.Future();
    if Extension(f) == "kit" {
      thrown := EvalKitFile(fs, future, f, host);
    } else {
      thrown := EvalSourceFile(fs, log, future, f, digest, useCache, notify, host);
    }
  }

  /** `future.complete(evalCacheFile(f))` for a .kit file. */
  method EvalKitFile(fs: FileSystem, future: KtsEvaluator.Future, f: File, host: Host) returns (thrown: Option<Failure>)
    requires future.value.None?
    modifies future
    ensures var o := KitPath(fs.files, f, host);
      && (o.Raised? ==> thrown == Some(o.error) && future.value.None?)
      && (o.Returned? ==> thrown.None? && future.value == o.completion)
  {
    var r := EvalCacheFile(fs, f, None, host);
    if r.Throw? {
      return Some(r.error);
    }
    future.Complete(r.value.value);
    thrown := None;
  }

  /** evalFile on a source file. */
  method EvalSourceFile(fs: FileSystem, log: Sink, future: KtsEvaluator.Future, f: File, digest: string,
                        useCache: bool, notify: bool, host: Host)
      returns (thrown: Option<Failure>)
    requires future.value.None?
    modifies fs, log, future
    ensures Realizes(SourcePath(old(fs.files), f, digest, useCache, notify, host), thrown, old(log.lines), log.lines,
      future.value, old(fs.files), fs.files)
  {
    var cacheFile := CacheFileOf(host, f);
    if fs.Exists(cacheFile) && useCache {
      var result := EvalCacheFile(fs, cacheFile, Some(digest), host);
      if result.Throw? {
        return Some(result.error);
      }
      if result.value.Some? {
        future.Complete(result.value.value);
        return None;
      }
    }
    CompileBlock(fs, log, future, f, digest, useCache, notify, host);
    thrown := None;
  }

  /** The block evalFile submits: compile, write the record when useCache
      is set, log, evaluate and complete the future; a compile failure
      completes it with that failure. */
  method CompileBlock(fs: FileSystem, log: Sink, future: KtsEvaluator.Future, f: File, digest: string,
                      useCache: bool, notify: bool, host: Host)
    requires future.value.None?
    modifies fs, log, future
    ensures var o := CompilePath(old(fs.files), f, digest, useCache, notify, host);
      log.lines == old(log.lines) + o.logged && future.value == o.completion && fs.files == o.files
  {
    if notify {
      log.Send(": " + f.name + " : script-compile");
    }
    var compiled := host.compiler(f);
    var r: Result<EvaluationResult>;
    if compiled.Success? {
      var it := compiled.value;
      if useCache {
        var out := new ObjectOutputStream();
        out.WriteObject(Str(digest));
        out.WriteObject(Blob(it));
        assert out.written == Record(digest, it);
        fs.WriteBytes(CacheFileOf(host, f), out.written);
      }
      if notify {
        log.Send(": " + f.name + " : script-compile-success");
      }
      var evaluated := host.evaluator(it);
      future.Complete(evaluated);
      r := Prepend(compiled.reports, evaluated);
    } else {
      r := Failure(compiled.reports);
    }
    if r.Failure? {
      future.Complete(r);
    }
  }

  // ------------------------------------------------------------ properties

  /** A .kit file is always evaluated when it can be read: no digest is
      compared, and the content digest and useCache play no part. */
  lemma KitAlwaysEvaluated(files: map<File, seq<Field>>, f: File, digest: string, useCache: bool, notify: bool,
                           host: Host, compiled: CompiledScript, stored: string)
    requires Extension(f) == "kit" && f in files && files[f] == Record(stored, compiled)
    ensures EvalFileSpec(files, f, digest, useCache, notify, host) == Returned([], Some(host.evaluator(compiled)), files)
  {
  }

  /** Whatever a .kit file holds, evalFile never compiles it and never
      leaves its future open. */
  lemma KitNeverCompiles(files: map<File, seq<Field>>, f: File, digest: string, useCache: bool, notify: bool, host: Host)
    requires Extension(f) == "kit"
    ensures var o := EvalFileSpec(files, f, digest, useCache, notify, host);
      o.Returned? ==> o.logged == [] && o.files == files && o.completion.Some?
  {
  }

  /** The first evalFile of a script with no cache record compiles it and
      writes [digest, compiled]; the next evalFile of the unchanged source
      hits that record, logs nothing, and completes the future with the
      same result. */
  lemma SecondEvalHits(files: map<File, seq<Field>>, f: File, digest: string, notify: bool, host: Host)
    requires Extension(f) != "kit" && host.compiler(f).Success?
    requires CacheFileOf(host, f) !in files
    ensures var first := EvalFileSpec(files, f, digest, true, notify, host);
      && first == CompilePath(files, f, digest, true, notify, host)
      && first.files == files[CacheFileOf(host, f) := Record(digest, host.compiler(f).value)]
      && EvalFileSpec(first.files, f, digest, true, notify, host) == Returned([], first.completion, first.files)
  {
    var first := EvalFileSpec(files, f, digest, true, notify, host);
    RecordRoundTrip(first.files, CacheFileOf(host, f), digest, host.compiler(f).value, host);
  }

  /** A record for other content is passed over without a word: the source
      is compiled again and the record replaced. */
  lemma StaleRecordRecompiles(files: map<File, seq<Field>>, f: File, digest: string, notify: bool, host: Host,
                              stored: string, earlier: CompiledScript)
    requires Extension(f) != "kit" && stored != digest
    requires CacheFileOf(host, f) in files && files[CacheFileOf(host, f)] == Record(stored, earlier)
    ensures EvalFileSpec(files, f, digest, true, notify, host) == CompilePath(files, f, digest, true, notify, host)
  {
    RecordRoundTrip(files, CacheFileOf(host, f), stored, earlier, host);
  }

  /** With useCache off the cache is neither read nor written, whatever it
      holds. */
  lemma NoCacheNeitherReadNorWritten(files: map<File, seq<Field>>, f: File, digest: string, notify: bool, host: Host)
    requires Extension(f) != "kit"
    ensures EvalFileSpec(files, f, digest, false, notify, host) ==
      Returned(CompileLines(f, notify, host), Some(CompileResult(f, host)), files)
  {
  }

  /** A compile failure completes the future with that failure, logs only
      script-compile, and writes nothing. */
  lemma CompileFailureWritesNothing(files: map<File, seq<Field>>, f: File, digest: string, useCache: bool, notify: bool,
                                    host: Host)
    requires Extension(f) != "kit" && host.compiler(f).Failure?
    requires Cached(files, f, digest, useCache, host) == Ok(None)
    ensures EvalFileSpec(files, f, digest, useCache, notify, host) ==
      Returned(if notify then [": " + f.name + " : script-compile"] else [], Some(Failure(host.compiler(f).reports)), files)
  {
  }

  /** A cache file that does not start with a string makes evalFile raise
      instead of recompiling. */
  lemma CorruptRecordRaises(files: map<File, seq<Field>>, f: File, digest: string, notify: bool, host: Host)
    requires Extension(f) != "kit" && CacheFileOf(host, f) in files
    requires var data := files[CacheFileOf(host, f)]; |data| >= 1 && data[0].IntField?
    ensures EvalFileSpec(files, f, digest, true, notify, host) == Raised(OptionalData)
  {
  }

  // ----------------------------------------------------- evalFileAndReport

  /** A diagnostic evalFileAndReport shows: above DEBUG, and not a
      "never used" warning. */
  predicate Shown(d: ScriptDiagnostic)
  {
    Above(d.severity, DEBUG) && !Contains(d.message, "never used")
  }

  /** The line shown for a diagnostic of file f. */
  function ReportLine(f: File, d: ScriptDiagnostic): string
  {
    ": " + f.name + " : " + ReportText(d)
  }

  /** The lines evalFileAndReport sends, in order. */
  function ReportLines(f: File, reports: seq<ScriptDiagnostic>): seq<string>
  {
    Map(Filter(reports, Shown), d => ReportLine(f, d))
  }

  /** The filter is the one reportResult applies with "never used" as the
      only ignored text. */
  lemma ShownIsForwarded(d: ScriptDiagnostic)
    ensures Shown(d) <==> KtsEvaluator.Forwarded(["never used"], d)
  {
    var ignore := ["never used"];
    if Shown(d) {
      forall k | 0 <= k < |ignore|
        ensures !Contains(d.message, ignore[k])
      {
        assert ignore[k] == "never used";
      }
    }
    if KtsEvaluator.Forwarded(ignore, d) {
      assert !Contains(d.message, ignore[0]);
    }
  }

  /** Exactly the shown diagnostics get a line, in their original order. */
  lemma ReportLinesExactly(f: File, reports: seq<ScriptDiagnostic>)
    ensures var r := ReportLines(f, reports);
      && |r| <= |reports|
      && (forall d :: d in reports && Shown(d) ==> ReportLine(f, d) in r)
      && (forall line :: line in r ==> exists d :: d in reports && Shown(d) && line == ReportLine(f, d))
      && IsSubsequence(Filter(reports, Shown), reports)
  {
    var kept := Filter(reports, Shown);
    var r := ReportLines(f, reports);
    forall d | d in reports && Shown(d)
      ensures ReportLine(f, d) in r
    {
      var k :| 0 <= k < |kept| && kept[k] == d;
      assert r[k] == ReportLine(f, d);
    }
    forall line | line in r
      ensures exists d :: d in reports && Shown(d) && line == ReportLine(f, d)
    {
      var k :| 0 <= k < |r| && r[k] == line;
      assert kept[k] in kept;
    }
  }

  /** One more diagnostic adds its line when it is shown. */
  lemma ReportLinesAppend(f: File, reports: seq<ScriptDiagnostic>, d: ScriptDiagnostic)
    ensures ReportLines(f, reports + [d]) == ReportLines(f, reports) + (if Shown(d) then [ReportLine(f, d)] else [])
  {
    FilterAppend(reports, d, Shown);
    var kept := Filter(reports, Shown);
    var line := (e: ScriptDiagnostic) => ReportLine(f, e);
    assert Map(kept + (if Shown(d) then [d] else []), line) == Map(kept, line) + (if Shown(d) then [line(d)] else []);
  }

  /** The thenApply callback: each shown diagnostic sent to the sender. */
  method Report(sender: Sink, f: File, reports: seq<ScriptDiagnostic>)
    modifies sender
    ensures sender.lines == old(sender.lines) + ReportLines(f, reports)
  {
    var i := 0;
    while i < |reports|
      invariant 0 <= i <= |reports|
      invariant sender.lines == old(sender.lines) + ReportLines(f, reports[..i])
      decreases |reports| - i
    {
      var d := reports[i];
      assert reports[..i + 1] == reports[..i] + [d];
      ReportLinesAppend(f, reports[..i], d);
      if Shown(d) {
        sender.Send(ReportLine(f, d));
      }
      i := i + 1;
    }
    assert reports[..|reports|] == reports;
  }

  /** The files, the log and the sender's lines. */
  datatype State = State(files: map<File, seq<Field>>, logged: seq<string>, sent: seq<string>)

  /** Where a run stopped: the exception that escaped, if any, and the
      state it left. */
  datatype Walk = Walk(thrown: Option<Failure>, state: State)

  /** evalFileAndReport(f) with useCache and notify on: evalFile, then the
      report once the future holds a result. */
  function EvalAndReport(st: State, f: File, digest: string, host: Host): Walk
  {
    var o := EvalFileSpec(st.files, f, digest, true, true, host);
    if o.Raised? then Walk(Some(o.error), st)
    else
      var report := if o.completion.Some? then ReportLines(f, o.completion.value.reports) else [];
      Walk(None, State(o.files, st.logged + o.logged, st.sent + report))
  }

  /** evalFileAndReport with the console as sender, proved against
      EvalAndReport. */
  method EvalFileAndReport(fs: FileSystem, log: Sink, sender: Sink, f: File, digest: string, host: Host)
      returns (thrown: Option<Failure>)
    requires log != sender
    modifies fs, log, sender
    ensures EvalAndReport(State(old(fs.files), old(log.lines), old(sender.lines)), f, digest, host) ==
      Walk(thrown, State(fs.files, log.lines, sender.lines))
  {
    var future;
    thrown, future := EvalFile(fs, log, f, digest, true, true, host);
    if thrown.None? && future.value.Some? {
      Report(sender, f, future.value.value.reports);
    }
  }

  // -------------------------------------------------------------- the walk

  /** The files load(n) hands to evalFileAndReport, in order: nothing from
      an entry whose own name starts with '.' or that is not a directory;
      otherwise, entry by entry, a subdirectory's files and each file with
      extension "kts". */
  function LoadOrder(n: Node, parent: seq<string>): seq<File>
    decreases n, 1
  {
    if Hidden(n.name) then []
    else match n
      case Regular(_) => []
      case Directory(name, children) => Entries(children, parent + [name])
  }

  /** `listFiles().forEach { ... }` over the entries of a directory. */
  function Entries(children: seq<Node>, parent: seq<string>): seq<File>
    decreases children, 0
  {
    if children == [] then [] else Entry(children[0], parent) + Entries(children[1..], parent)
  }

  /** One entry: a directory is walked, a "kts" file is evaluated. */
  function Entry(c: Node, parent: seq<string>): seq<File>
    decreases c, 2
  {
    if c.Directory? then LoadOrder(c, parent)
    else if Extension(FileOf(c, parent)) == "kts" then [FileOf(c, parent)]
    else []
  }

  /** The entries of a concatenation are those of each part. */
  lemma {:induction false} EntriesAppend(a: seq<Node>, b: seq<Node>, parent: seq<string>)
    ensures Entries(a + b, parent) == Entries(a, parent) + Entries(b, parent)
    decreases a
  {
    if a == [] {
      assert a + b == b;
    } else {
      assert (a + b)[0] == a[0];
      assert (a + b)[1..] == a[1..] + b;
      EntriesAppend(a[1..], b, parent);
      assert Entry(a[0], parent) + (Entries(a[1..], parent) + Entries(b, parent)) ==
        (Entry(a[0], parent) + Entries(a[1..], parent)) + Entries(b, parent);
    }
  }

  /** f is a file the walk meets from n: n is a directory whose own name
      does not start with '.', and f is one of its files or a file the
      walk meets from one of its subdirectories. */
  predicate Met(n: Node, parent: seq<string>, f: File)
    decreases n
  {
    !Hidden(n.name) && n.Directory? &&
    exists i :: 0 <= i < |n.children| &&
      ((n.children[i].Regular? && f == FileOf(n.children[i], parent + [n.name])) ||
       Met(n.children[i], parent + [n.name], f))
  }

  /** load evaluates exactly the "kts" files the walk meets. */
  lemma {:induction false} LoadOrderIff(n: Node, parent: seq<string>, f: File)
    ensures f in LoadOrder(n, parent) <==> Met(n, parent, f) && Extension(f) == "kts"
    decreases n, 1
  {
    if !Hidden(n.name) && n.Directory? {
      EntriesIff(n.children, parent + [n.name], f);
    }
  }

  lemma {:induction false} EntriesIff(children: seq<Node>, parent: seq<string>, f: File)
    ensures f in Entries(children, parent) <==>
      && Extension(f) == "kts"
      && exists i :: 0 <= i < |children| && ((children[i].Regular? && f == FileOf(children[i], parent)) || Met(children[i], parent, f))
    decreases children, 0
  {
    if children != [] {
      var c := children[0];
      if c.Directory? {
        LoadOrderIff(c, parent, f);
        assert !(c.Regular? && f == FileOf(c, parent));
      }
      EntriesIff(children[1..], parent, f);
      if && Extension(f) == "kts"
         && exists i :: 0 <= i < |children| && ((children[i].Regular? && f == FileOf(children[i], parent)) || Met(children[i], parent, f))
      {
        var i :| 0 <= i < |children| &&
          ((children[i].Regular? && f == FileOf(children[i], parent)) || Met(children[i], parent, f));
        if i > 0 {
          assert children[1..][i - 1] == children[i];
        } else if c.Regular? {
          assert !Met(c, parent, f);
        }
      }
      if exists i :: 0 <= i < |children[1..]| &&
           ((children[1..][i].Regular? && f == FileOf(children[1..][i], parent)) || Met(children[1..][i], parent, f)) {
        var i :| 0 <= i < |children[1..]| &&
          ((children[1..][i].Regular? && f == FileOf(children[1..][i], parent)) || Met(children[1..][i], parent, f));
        assert children[i + 1] == children[1..][i];
      }
    }
  }

  /** Only a directory's own name is checked: a '.'-prefixed .kts file in
      the scripts folder is evaluated at startup, although findScripts
      leaves it out. */
  lemma HiddenScriptStillLoaded()
    ensures var n := Directory("scripts", [Regular(".draft.kts")]);
      && File(["scripts"], ".draft.kts") in LoadOrder(n, [])
      && File(["scripts"], ".draft.kts") !in KotlinScript.FindScripts(n, [])
  {
    var n := Directory("scripts", [Regular(".draft.kts")]);
    DraftLoaded(n);
    assert Hidden(".draft.kts");
  }

  /** The walk of a directory holding only ".draft.kts" evaluates that file. */
  lemma DraftLoaded(n: Node)
    requires n == Directory("scripts", [Regular(".draft.kts")])
    ensures LoadOrder(n, []) == [File(["scripts"], ".draft.kts")]
  {
    var s := ".draft.kts";
    assert ".draft" + "." + "kts" == s;
    KotlinScript.WithExtension(["scripts"], ".draft", "kts");
    assert [] + ["scripts"] == ["scripts"];
    assert Entry(Regular(s), ["scripts"]) == [File(["scripts"], s)];
    assert Entries(n.children, ["scripts"]) == Entry(Regular(s), ["scripts"]) + Entries([], ["scripts"]);
  }

  /** A directory whose name starts with '.' is skipped whole, as the
      .build, .lazy and .include folders are. */
  lemma HiddenDirectorySkipped(name: string, children: seq<Node>, parent: seq<string>)
    requires Hidden(name)
    ensures LoadOrder(Directory(name, children), parent) == []
  {
  }

  /** evalFileAndReport on each file in turn, stopping at the first
      exception. */
  function RunAll(st: State, order: seq<File>, digestOf: File -> string, host: Host): Walk
    decreases order
  {
    if order == [] then Walk(None, st)
    else
      var w := EvalAndReport(st, order[0], digestOf(order[0]), host);
      if w.thrown.Some? then w else RunAll(w.state, order[1..], digestOf, host)
  }

  /** Running two lists is running the first, then, unless it threw, the
      second from where the first left off. */
  lemma {:induction false} RunAllAppend(st: State, a: seq<File>, b: seq<File>, digestOf: File -> string, host: Host)
    ensures RunAll(st, a + b, digestOf, host) ==
      var w := RunAll(st, a, digestOf, host); if w.thrown.Some? then w else RunAll(w.state, b, digestOf, host)
    decreases a
  {
    if a == [] {
      assert a + b == b;
    } else {
      assert (a + b)[0] == a[0];
      assert (a + b)[1..] == a[1..] + b;
      var w := EvalAndReport(st, a[0], digestOf(a[0]), host);
      if w.thrown.None? {
        RunAllAppend(w.state, a[1..], b, digestOf, host);
      }
    }
  }

  /** One evaluated file: the run of a one-element list. */
  lemma RunAllSingle(st: State, f: File, digestOf: File -> string, host: Host)
    ensures RunAll(st, [f], digestOf, host) == EvalAndReport(st, f, digestOf(f), host)
  {
    var w := EvalAndReport(st, f, digestOf(f), host);
    assert [f][1..] == [];
    if w.thrown.None? {
      assert RunAll(w.state, [], digestOf, host) == Walk(None, w.state);
    }
  }

  /** load(n): the walk, proved against RunAll over LoadOrder. `digestOf`
      gives each source file's SHA-1. */
  method Load(fs: FileSystem, log: Sink, sender: Sink, n: Node, parent: seq<string>, digestOf: File -> string, host: Host)
      returns (thrown: Option<Failure>)
    requires log != sender
    modifies fs, log, sender
    decreases n, 1
    ensures RunAll(State(old(fs.files), old(log.lines), old(sender.lines)), LoadOrder(n, parent), digestOf, host) ==
      Walk(thrown, State(fs.files, log.lines, sender.lines))
  {
    if Hidden(n.name) || n.Regular? {
      return None;
    }
    ghost var st0 := State(fs.files, log.lines, sender.lines);
    var p := parent + [n.name];
    var i := 0;
    thrown := None;
    while i < |n.children|
      invariant 0 <= i <= |n.children|
      invariant RunAll(st0, Entries(n.children[..i], p), digestOf, host) == Walk(None, State(fs.files, log.lines, sender.lines))
      invariant thrown.None?
      decreases |n.children| - i
    {
      var c := n.children[i];
      ghost var prefix := Entries(n.children[..i], p);
      EntriesSnoc(n.children, i, p);
      RunAllAppend(st0, prefix, Entry(c, p), digestOf, host);
      thrown := LoadEntry(fs, log, sender, c, p, digestOf, host);
      if thrown.Some? {
        EntriesRest(n.children, i, p);
        RunAllAppend(st0, Entries(n.children[..i + 1], p), Entries(n.children[i + 1..], p), digestOf, host);
        return;
      }
      i := i + 1;
    }
    assert n.children[..|n.children|] == n.children;
  }

  /** The entries up to and including the i-th. */
  lemma EntriesSnoc(children: seq<Node>, i: nat, parent: seq<string>)
    requires i < |children|
    ensures Entries(children[..i + 1], parent) == Entries(children[..i], parent) + Entry(children[i], parent)
  {
    assert children[..i + 1] == children[..i] + [children[i]];
    EntriesAppend(children[..i], [children[i]], parent);
    assert Entries([children[i]], parent) == Entry(children[i], parent) + Entries([], parent);
  }

  /** All entries: those up to the i-th, then the rest. */
  lemma EntriesRest(children: seq<Node>, i: nat, parent: seq<string>)
    requires i < |children|
    ensures Entries(children, parent) == Entries(children[..i + 1], parent) + Entries(children[i + 1..], parent)
  {
    assert children == children[..i + 1] + children[i + 1..];
    EntriesAppend(children[..i + 1], children[i + 1..], parent);
  }

  /** One entry of a directory's listing: a subdirectory is walked, a
      "kts" file goes to evalFileAndReport, anything else is passed over. */
  method LoadEntry(fs: FileSystem, log: Sink, sender: Sink, c: Node, p: seq<string>, digestOf: File -> string, host: Host)
      returns (thrown: Option<Failure>)
    requires log != sender
    modifies fs, log, sender
    decreases c, 2
    ensures RunAll(State(old(fs.files), old(log.lines), old(sender.lines)), Entry(c, p), digestOf, host) ==
      Walk(thrown, State(fs.files, log.lines, sender.lines))
  {
    ghost var st := State(fs.files, log.lines, sender.lines);
    if c.Directory? {
      thrown := Load(fs, log, sender, c, p, digestOf, host);
    } else if Extension(FileOf(c, p)) == "kts" {
      var f := FileOf(c, p);
      RunAllSingle(st, f, digestOf, host);
      thrown := EvalFileAndReport(fs, log, sender, f, digestOf(f), host);
    } else {
      thrown := None;
    }
  }
}
