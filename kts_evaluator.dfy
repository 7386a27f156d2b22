/** kts/GlaiEvaluator: decide whether a script file is run from its cache
    record, refused, or compiled, and report what its evaluation said. The
    compile step runs in place (compileAsync = false); the future is a cell
    that is completed at most once. */
module KtsEvaluator {
  import opened Kotlin
  import opened Diagnostics
  import opened Serialization
  import opened ScriptFile
  import opened KotlinScript
  import opened Compiler
  import Registry

  /** The messages eval sends to its receiver, by language key. */
  datatype Message =
    | ScriptIsRunning(name: string)                                    // script-is-running
    | PropertyNotMatch(name: string, size: int, description: string)   // script-compile-property-not-match
    | ScriptEval(name: string)                                         // script-eval
    | ScriptCompile(name: string)                                      // script-compile
    | CompileSuccess(name: string)                                     // script-compile-success
    | EvalReport(id: string, text: string)                             // script-eval-report

  /** GlaiScript.eval(id, props): the scripting host's evaluator. */
  type ScriptEvaluator = (CompiledScript, string, RuntimeProperty) -> Result<EvaluationResult>

  /** A CompletableFuture: empty until completed, and complete() on a
      completed future changes nothing. */
  class Future {
    var value: Option<Result<EvaluationResult>>

    constructor ()
      ensures value == None
    {
      value := None;
    }

    method Complete(r: Result<EvaluationResult>)
      modifies this
      ensures value == if old(value).None? then Some(r) else old(value)
    {
      if value.None? {
        value := Some(r);
      }
    }
  }

  /** The message receiver (a ProxyCommandSender): everything sent to it. */
  class Receiver {
    var sent: seq<Message>

    constructor ()
      ensures sent == []
    {
      sent := [];
    }

    method Send(m: Message)
      modifies this
      ensures sent == old(sent) + [m]
    {
      sent := sent + [m];
    }
  }

  /** isScriptRunning(file): a container is registered under the file's
      name without extension. */
  function IsScriptRunning(m: Registry.ScriptManager, f: File): (running: bool)
    reads m
    ensures running <==> NameWithoutExtension(f) in m.containers
  {
    m.Get(NameWithoutExtension(f)).Some?
  }

  // ------------------------------------------------------------- reporting

  /** A diagnostic reportResult forwards: severity above DEBUG, and none of
      the ignore-result-message entries occurs in its message. */
  predicate Forwarded(ignore: seq<string>, d: ScriptDiagnostic)
  {
    Above(d.severity, DEBUG) && forall k :: 0 <= k < |ignore| ==> !Contains(d.message, ignore[k])
  }

  /** The script-eval-report message for one diagnostic. */
  function ReportOf(id: string, d: ScriptDiagnostic): Message
  {
    EvalReport(id, ReportText(d))
  }

  /** The messages reportResult sends, in order. */
  function ReportResult(reports: seq<ScriptDiagnostic>, ignore: seq<string>, id: string): seq<Message>
  {
    Map(Filter(reports, d => Forwarded(ignore, d)), d => ReportOf(id, d))
  }

  /** Exactly the forwarded diagnostics are reported, in their original
      order, one message each. */
  lemma ReportResultExactly(reports: seq<ScriptDiagnostic>, ignore: seq<string>, id: string)
    ensures var r := ReportResult(reports, ignore, id);
      && |r| <= |reports|
      && (forall d :: d in reports && Forwarded(ignore, d) ==> ReportOf(id, d) in r)
      && (forall msg :: msg in r ==> exists d :: d in reports && Forwarded(ignore, d) && msg == ReportOf(id, d))
      && IsSubsequence(Filter(reports, d => Forwarded(ignore, d)), reports)
  {
    var kept := Filter(reports, d => Forwarded(ignore, d));
    var r := ReportResult(reports, ignore, id);
    forall d | d in reports && Forwarded(ignore, d)
      ensures ReportOf(id, d) in r
    {
      var k :| 0 <= k < |kept| && kept[k] == d;
      assert r[k] == ReportOf(id, d);
    }
    forall msg | msg in r
      ensures exists d :: d in reports && Forwarded(ignore, d) && msg == ReportOf(id, d)
    {
      var k :| 0 <= k < |r| && r[k] == msg;
      assert kept[k] in kept;
    }
  }

  /** DEBUG diagnostics, and diagnostics whose message contains an ignored
      text, are never reported. */
  lemma ReportResultDrops(reports: seq<ScriptDiagnostic>, ignore: seq<string>, id: string, d: ScriptDiagnostic)
    requires d in reports && (d.severity == DEBUG || exists k :: 0 <= k < |ignore| && Contains(d.message, ignore[k]))
    requires forall e :: e in reports && e != d ==> ReportOf(id, e) != ReportOf(id, d)
    ensures ReportOf(id, d) !in ReportResult(reports, ignore, id)
  {
    ReportResultExactly(reports, ignore, id);
  }

  /** One more diagnostic adds its message when it is forwarded. */
  lemma ReportResultAppend(reports: seq<ScriptDiagnostic>, d: ScriptDiagnostic, ignore: seq<string>, id: string)
    ensures ReportResult(reports + [d], ignore, id) ==
      ReportResult(reports, ignore, id) + (if Forwarded(ignore, d) then [ReportOf(id, d)] else [])
  {
    var p := (e: ScriptDiagnostic) => Forwarded(ignore, e);
    FilterAppend(reports, d, p);
    var kept := Filter(reports, p);
    var f := (e: ScriptDiagnostic) => ReportOf(id, e);
    assert Map(kept + (if p(d) then [d] else []), f) == Map(kept, f) + (if p(d) then [f(d)] else []);
  }

  /** reportResult(result, receiver, id): the forwarded diagnostics sent one
      by one. */
  method Report(receiver: Receiver, reports: seq<ScriptDiagnostic>, ignore: seq<string>, id: string)
    modifies receiver
    ensures receiver.sent == old(receiver.sent) + ReportResult(reports, ignore, id)
  {
    var i := 0;
    while i < |reports|
      invariant 0 <= i <= |reports|
      invariant receiver.sent == old(receiver.sent) + ReportResult(reports[..i], ignore, id)
      decreases |reports| - i
    {
      var d := reports[i];
      assert reports[..i + 1] == reports[..i] + [d];
      ReportResultAppend(reports[..i], d, ignore, id);
      if Forwarded(ignore, d) {
        receiver.Send(ReportOf(id, d));
      }
      i := i + 1;
    }
    assert reports[..|reports|] == reports;
  }

  // ------------------------------------------------------------------ eval

  /** The arguments of eval, with the SHA-1 of the file's content computed
      by the caller. */
  datatype Request = Request(
    file: File, fileDigest: string, cache: bool, logging: bool, props: RuntimeProperty, report: bool)

  /** What eval depends on besides its arguments: the data folder, the
      compiler, the evaluator and the ignore-result-message setting. */
  datatype Host = Host(dataFolder: seq<string>, compiler: ScriptCompiler, evaluator: ScriptEvaluator, ignore: seq<string>)

  /** scripts/.build/<name>.kit under the data folder. */
  function CacheFileOf(dataFolder: seq<string>, file: File): File
  {
    File(dataFolder + ["scripts", ".build"], NameWithoutExtension(file) + ".kit")
  }

  /** The cache file's name without extension is the script's. */
  lemma CacheFileName(dataFolder: seq<string>, file: File)
    ensures NameWithoutExtension(CacheFileOf(dataFolder, file)) == NameWithoutExtension(file)
  {
    var n := NameWithoutExtension(file);
    var s := n + ".kit";
    assert s[|n|] == '.' && s[|n| + 1..] == "kit";
    LastDotAt(s, |n|);
    assert s[..|n|] == n;
  }

  /** The digest array eval compares and writes. */
  function DigestsOf(req: Request): Digests
  {
    Digests(req.fileDigest, req.props.digest)
  }

  /** The outcome of the local run(file, checkFile): loading threw, or it
      reports whether it evaluated, with the messages it sent and what it
      completed the future with. */
  datatype RunOutcome =
    | RunThrew(error: Failure)
    | Ran(evaluated: bool, sent: seq<Message>, completion: Option<Result<EvaluationResult>>)

  /** The loaded cache file, or the exception loading raises. */
  function Load(files: map<File, seq<Field>>, f: File): Try<GlaiScriptFile>
  {
    if f in files then LoadSpec(f, files[f]) else Throw(FileNotFound)
  }

  function RunSpec(req: Request, host: Host, files: map<File, seq<Field>>, f: File, checkFile: bool): RunOutcome
  {
    var name := NameWithoutExtension(f);
    var loaded := Load(files, f);
    if loaded.Throw? then RunThrew(loaded.error)
    else
      var sf := loaded.value;
      if checkFile && sf.digest[0] != DigestsOf(req).source then Ran(false, [], None)
      else if sf.digest[1] != DigestsOf(req).properties then
        Ran(false, [PropertyNotMatch(name, sf.propsSize, sf.propsDescription)], None)
      else
        Ran(true, if req.logging then [ScriptEval(name)] else [], Some(host.evaluator(sf.compiled, name, req.props)))
  }

  /** What eval does: an exception escaped it, or it returned after sending
      `sent`, with the future in state `completion` and the files as `files`. */
  datatype Outcome =
    | Raised(error: Failure)
    | Returned(sent: seq<Message>, completion: Option<Result<EvaluationResult>>, files: map<File, seq<Field>>)

  /** The messages the compile block sends: script-compile, then
      script-compile-success when compilation succeeded (both only when
      logging). */
  function CompileMessages(req: Request, host: Host): seq<Message>
  {
    var name := NameWithoutExtension(req.file);
    (if req.logging then [ScriptCompile(name)] else []) +
    (if req.logging && host.compiler(req.file, req.props).Success? then [CompileSuccess(name)] else [])
  }

  /** The report sent once the future holds the compile path's result. */
  function CompileReports(req: Request, host: Host): seq<Message>
  {
    if req.report then ReportResult(CompileResult(req, host).reports, host.ignore, NameWithoutExtension(req.file)) else []
  }

  /** The compile path: compile with the cache file when caching, complete
      the future with the evaluation result or the compile failure, then
      report that result. */
  function CompilePath(req: Request, host: Host, files: map<File, seq<Field>>): (o: Outcome)
    ensures o.Returned?
  {
    var compiledFile := if req.cache then Some(CacheFileOf(host.dataFolder, req.file)) else None;
    Returned(
      CompileMessages(req, host) + CompileReports(req, host),
      Some(CompileResult(req, host)),
      AfterCompile(files, host.compiler(req.file, req.props), compiledFile, DigestsOf(req), req.props))
  }

  /** `cacheFile.exists() && cache && run(cacheFile)`. */
  function CacheRun(req: Request, host: Host, files: map<File, seq<Field>>): RunOutcome
  {
    var cacheFile := CacheFileOf(host.dataFolder, req.file);
    if cacheFile in files && req.cache then RunSpec(req, host, files, cacheFile, true) else Ran(false, [], None)
  }

  /** eval on a source file that is not running: run the cache record when
      it exists and caching is on, and compile unless that evaluated. */
  function SourcePath(req: Request, host: Host, files: map<File, seq<Field>>): Outcome
  {
    var run := CacheRun(req, host, files);
    if run.RunThrew? then Raised(run.error)
    else if run.evaluated then Returned(run.sent, run.completion, files)
    else
      var compile := CompilePath(req, host, files);
      Returned(run.sent + compile.sent, compile.completion, compile.files)
  }

  /** eval(file, cache, logging, receiver, props, compileAsync = false,
      report) on a registry in which the script is `running` and the files
      `files`. */
  function EvalSpec(req: Request, host: Host, running: bool, files: map<File, seq<Field>>): Outcome
  {
    if running then Returned([ScriptIsRunning(NameWithoutExtension(req.file))], None, files)
    else if Extension(req.file) == "kit" then KitPath(req, host, files)
    else SourcePath(req, host, files)
  }

  /** eval on a .kit file: the file itself is run, without the content
      check, and nothing is compiled. */
  function KitPath(req: Request, host: Host, files: map<File, seq<Field>>): Outcome
  {
    var run := RunSpec(req, host, files, req.file, false);
    if run.RunThrew? then Raised(run.error) else Returned(run.sent, run.completion, files)
  }

  /** A run that threw left the messages and the future as they were; one
      that returned sent its messages and completed the future as stated. */
  predicate RanAs(run: RunOutcome, thrown: Option<Failure>, evaluated: bool, sent0: seq<Message>, sent: seq<Message>,
                  completion: Option<Result<EvaluationResult>>)
  {
    match run
    case RunThrew(e) => thrown == Some(e) && sent == sent0 && completion.None?
    case Ran(ev, s, c) => thrown.None? && evaluated == ev && sent == sent0 + s && completion == c
  }

  /** The state after eval agrees with the outcome: an exception leaves the
      messages and files untouched; a return sent the outcome's messages,
      completed the future and left the files as it says. */
  predicate Realizes(o: Outcome, thrown: Option<Failure>, sent0: seq<Message>, sent: seq<Message>,
                     completion: Option<Result<EvaluationResult>>, files0: map<File, seq<Field>>, files: map<File, seq<Field>>)
  {
    match o
    case Raised(e) => thrown == Some(e) && sent == sent0 && files == files0
    case Returned(s, c, fs) => thrown.None? && completion == c && sent == sent0 + s && files == fs
  }

  /** The local run(file, checkFile). */
  method Run(fs: FileSystem, receiver: Receiver, future: Future, req: Request, host: Host, f: File, checkFile: bool)
      returns (thrown: Option<Failure>, evaluated: bool)
    requires future.value.None?
    modifies receiver, future
    ensures RanAs(RunSpec(req, host, fs.files, f, checkFile), thrown, evaluated, old(receiver.sent), receiver.sent, future.value)
  {
    var name := NameWithoutExtension(f);
    var loaded := LoadFromFile(fs, f);
    if loaded.Throw? {
      return Some(loaded.error), false;
    }
    var compiledFile := loaded.value;
    if checkFile && compiledFile.digest[0] != DigestsOf(req).source {
      return None, false;
    } else if compiledFile.digest[1] != DigestsOf(req).properties {
      receiver.Send(PropertyNotMatch(name, compiledFile.propsSize, compiledFile.propsDescription));
      return None, false;
    } else {
      future.Complete(host.evaluator(compiledFile.compiled, name, req.props));
      if req.logging {
        receiver.Send(ScriptEval(name));
      }
      return None, true;
    }
  }

  /** GlaiEvaluator.eval, proved against EvalSpec. */
  method Eval(m: Registry.ScriptManager, fs: FileSystem, receiver: Receiver, req: Request, host: Host)
      returns (thrown: Option<Failure>, future: Future)
    modifies fs, receiver
    ensures fresh(future)
    ensures Realizes(EvalSpec(req, host, NameWithoutExtension(req.file) in m.containers, old(fs.files)),
      thrown, old(receiver.sent), receiver.sent, future.value, old(fs.files), fs.files)
  {
    future := new Future();
    var name := NameWithoutExtension(req.file);
    if IsScriptRunning(m, req.file) {
      receiver.Send(ScriptIsRunning(name));
      return None, future;
    }
    thrown := EvalIdle(fs, receiver, future, req, host);
  }

  /** eval on a script that is not running. */
  method EvalIdle(fs: FileSystem, receiver: Receiver, future: Future, req: Request, host: Host)
      returns (thrown: Option<Failure>)
    requires future.value.None?
    modifies fs, receiver, future
    ensures Realizes(EvalSpec(req, host, false, old(fs.files)), thrown, old(receiver.sent), receiver.sent, future.value,
      old(fs.files), fs.files)
  {
    if Extension(req.file) == "kit" {
      thrown := EvalKit(fs, receiver, future, req, host);
    } else {
      thrown := EvalSource(fs, receiver, future, req, host);
    }
  }

  /** A .kit file is run directly, without the content check. */
  method EvalKit(fs: FileSystem, receiver: Receiver, future: Future, req: Request, host: Host)
      returns (thrown: Option<Failure>)
    requires future.value.None?
    modifies receiver, future
    ensures Realizes(KitPath(req, host, fs.files), thrown, old(receiver.sent), receiver.sent, future.value,
      fs.files, fs.files)
  {
    var evaluated;
    thrown, evaluated := Run(fs, receiver, future, req, host, req.file, false);
  }

  /** The part of eval after the .kit check. */
  method EvalSource(fs: FileSystem, receiver: Receiver, future: Future, req: Request, host: Host)
      returns (thrown: Option<Failure>)
    requires future.value.None?
    modifies fs, receiver, future
    ensures Realizes(SourcePath(req, host, old(fs.files)), thrown, old(receiver.sent), receiver.sent, future.value,
      old(fs.files), fs.files)
  {
    ghost var run := CacheRun(req, host, fs.files);
    var evaluated;
    thrown, evaluated := TryCache(fs, receiver, future, req, host);
    if thrown.Some? || evaluated {
      return thrown;
    }
    CompileAfterMiss(fs, receiver, future, req, host, old(receiver.sent), run.sent);
  }

  /** The compile block after the cache record was missing, stale or not
      for these properties, having sent `sent` since `sent0`. */
  method CompileAfterMiss(fs: FileSystem, receiver: Receiver, future: Future, req: Request, host: Host,
                          ghost sent0: seq<Message>, ghost sent: seq<Message>)
    requires future.value.None?
    requires CacheRun(req, host, fs.files) == Ran(false, sent, None)
    requires receiver.sent == sent0 + sent
    modifies fs, receiver, future
    ensures Realizes(SourcePath(req, host, old(fs.files)), None, sent0, receiver.sent, future.value,
      old(fs.files), fs.files)
  {
    CompileStep(fs, receiver, future, req, host);
    AppendAssoc(sent0, sent, CompilePath(req, host, old(fs.files)).sent);
  }

  /** The cache check: the record is run only when it exists and caching
      is on. */
  method TryCache(fs: FileSystem, receiver: Receiver, future: Future, req: Request, host: Host)
      returns (thrown: Option<Failure>, evaluated: bool)
    requires future.value.None?
    modifies receiver, future
    ensures RanAs(CacheRun(req, host, fs.files), thrown, evaluated, old(receiver.sent), receiver.sent, future.value)
  {
    var cacheFile := CacheFileOf(host.dataFolder, req.file);
    if fs.Exists(cacheFile) && req.cache {
      thrown, evaluated := Run(fs, receiver, future, req, host, cacheFile, true);
    } else {
      thrown, evaluated := None, false;
    }
  }

  /** What the compile block completes the future with: the evaluation
      result when compilation succeeds, the compile failure otherwise. */
  function CompileResult(req: Request, host: Host): Result<EvaluationResult>
  {
    var compiled := host.compiler(req.file, req.props);
    if compiled.Success? then host.evaluator(compiled.value, NameWithoutExtension(req.file), req.props)
    else Failure(compiled.reports)
  }

  /** The compile block eval submits, run in place, and the report attached
      to the future. */
  method CompileStep(fs: FileSystem, receiver: Receiver, future: Future, req: Request, host: Host)
    requires future.value.None?
    modifies fs, receiver, future
    ensures var o := CompilePath(req, host, old(fs.files));
      receiver.sent == old(receiver.sent) + o.sent && future.value == o.completion && fs.files == o.files
  {
    var name := NameWithoutExtension(req.file);
    if req.logging {
      receiver.Send(ScriptCompile(name));
    }
    CompileAndComplete(fs, receiver, future, req, host);
    ghost var sent := receiver.sent;
    assert sent == old(receiver.sent) + CompileMessages(req, host);
    assert future.value.value == CompileResult(req, host);
    if req.report {
      Report(receiver, future.value.value.reports, host.ignore, name);
    }
    assert receiver.sent == sent + CompileReports(req, host);
    AppendAssoc(old(receiver.sent), CompileMessages(req, host), CompileReports(req, host));
  }

  /** `compile(...) { ...; it.eval(...).also { future.complete(it) } }.onFailure { future.complete(it) }`. */
  method CompileAndComplete(fs: FileSystem, receiver: Receiver, future: Future, req: Request, host: Host)
    requires future.value.None?
    modifies fs, receiver, future
    ensures future.value == Some(CompileResult(req, host))
    ensures fs.files == AfterCompile(old(fs.files), host.compiler(req.file, req.props),
      if req.cache then Some(CacheFileOf(host.dataFolder, req.file)) else None, DigestsOf(req), req.props)
    ensures receiver.sent == old(receiver.sent) +
      if req.logging && host.compiler(req.file, req.props).Success? then [CompileSuccess(NameWithoutExtension(req.file))] else []
  {
    var name := NameWithoutExtension(req.file);
    var compiledFile := if req.cache then Some(CacheFileOf(host.dataFolder, req.file)) else None;
    var r, invoked := Compile(fs, req.props, req.file, compiledFile, DigestsOf(req), host.compiler,
      (s: CompiledScript) => host.evaluator(s, name, req.props));
    if invoked.Some? {
      if req.logging {
        receiver.Send(CompileSuccess(name));
      }
      future.Complete(host.evaluator(invoked.value, name, req.props));
    }
    if r.Failure? {
      future.Complete(r);
    }
  }

  // ------------------------------------------------------------ properties

  /** A running script is refused with one message, and the future is never
      completed; nothing is loaded, compiled or written. */
  lemma RunningRefused(req: Request, host: Host, files: map<File, seq<Field>>)
    ensures EvalSpec(req, host, true, files) == Returned([ScriptIsRunning(NameWithoutExtension(req.file))], None, files)
  {
  }

  /** A .kit file is run without comparing the content digest: when its
      property digest matches it is evaluated, whatever content digest it
      holds; when it does not, one message is sent, the future stays open
      and nothing is compiled. */
  lemma KitSkipsContentCheck(req: Request, host: Host, files: map<File, seq<Field>>)
    requires Extension(req.file) == "kit" && Load(files, req.file).Ok?
    ensures var sf, name := Load(files, req.file).value, NameWithoutExtension(req.file);
      EvalSpec(req, host, false, files) ==
        if sf.digest[1] == req.props.digest then
          Returned(if req.logging then [ScriptEval(name)] else [], Some(host.evaluator(sf.compiled, name, req.props)), files)
        else
          Returned([PropertyNotMatch(name, sf.propsSize, sf.propsDescription)], None, files)
  {
  }

  /** A stale cache record (content digest differs) falls through to
      compilation without any message of its own. */
  lemma StaleContentRecompiles(req: Request, host: Host, files: map<File, seq<Field>>)
    requires Extension(req.file) != "kit" && req.cache
    requires Load(files, CacheFileOf(host.dataFolder, req.file)).Ok?
    requires Load(files, CacheFileOf(host.dataFolder, req.file)).value.digest[0] != req.fileDigest
    ensures EvalSpec(req, host, false, files) == CompilePath(req, host, files)
  {
  }

  /** A record whose property digest differs sends property-not-match with
      the stored count and description, then still compiles. */
  lemma PropertyMismatchRecompiles(req: Request, host: Host, files: map<File, seq<Field>>)
    requires Extension(req.file) != "kit" && req.cache
    requires Load(files, CacheFileOf(host.dataFolder, req.file)).Ok?
    requires var sf := Load(files, CacheFileOf(host.dataFolder, req.file)).value;
      sf.digest[0] == req.fileDigest && sf.digest[1] != req.props.digest
    ensures var sf, name, c := Load(files, CacheFileOf(host.dataFolder, req.file)).value, NameWithoutExtension(req.file), CompilePath(req, host, files);
      EvalSpec(req, host, false, files) ==
        Returned([PropertyNotMatch(name, sf.propsSize, sf.propsDescription)] + c.sent, c.completion, c.files)
  {
    CacheFileName(host.dataFolder, req.file);
  }

  /** A record matching both digests is evaluated and nothing is compiled,
      written or reported. */
  lemma CacheHitNotReported(req: Request, host: Host, files: map<File, seq<Field>>)
    requires Extension(req.file) != "kit" && req.cache
    requires Load(files, CacheFileOf(host.dataFolder, req.file)).Ok?
    requires var sf := Load(files, CacheFileOf(host.dataFolder, req.file)).value;
      sf.digest[0] == req.fileDigest && sf.digest[1] == req.props.digest
    ensures var sf, name := Load(files, CacheFileOf(host.dataFolder, req.file)).value, NameWithoutExtension(req.file);
      EvalSpec(req, host, false, files) ==
        Returned(if req.logging then [ScriptEval(name)] else [], Some(host.evaluator(sf.compiled, name, req.props)), files)
  {
    CacheFileName(host.dataFolder, req.file);
  }

  /** Without caching, or without a cache file, eval compiles straight away;
      without caching nothing is written. */
  lemma NoCacheCompiles(req: Request, host: Host, files: map<File, seq<Field>>)
    requires Extension(req.file) != "kit"
    requires !req.cache || CacheFileOf(host.dataFolder, req.file) !in files
    ensures EvalSpec(req, host, false, files) == CompilePath(req, host, files)
    ensures !req.cache ==> EvalSpec(req, host, false, files).files == files
  {
  }

  /** On the compile path the future is completed with the evaluation result
      when compilation succeeds and with the compile failure otherwise; the
      record is written only on success with caching on, and the reports
      sent are those of the result the future holds. */
  lemma CompilePathOutcome(req: Request, host: Host, files: map<File, seq<Field>>)
    ensures var o, compiled, name := CompilePath(req, host, files), host.compiler(req.file, req.props), NameWithoutExtension(req.file);
      && o.Returned? && o.completion.Some?
      && (compiled.Success? ==> o.completion.value == host.evaluator(compiled.value, name, req.props))
      && (compiled.Failure? ==> o.completion.value == Failure(compiled.reports) && o.files == files)
      && (!req.cache ==> o.files == files)
      && (compiled.Success? && req.cache ==>
            o.files == files[CacheFileOf(host.dataFolder, req.file) := KtsRecord(DigestsOf(req), req.props, compiled.value)])
      && (req.report ==> o.sent[|o.sent| - |ReportResult(o.completion.value.reports, host.ignore, name)|..] ==
                           ReportResult(o.completion.value.reports, host.ignore, name))
      && (!req.report && !req.logging ==> o.sent == [])
  {
  }

  /** The record a caching compile writes makes the next eval of the same
      script throw: loading it raises OptionalDataException before any
      digest is compared. */
  lemma SecondEvalThrows(req: Request, host: Host, files: map<File, seq<Field>>)
    requires Extension(req.file) != "kit" && req.cache
    requires host.compiler(req.file, req.props).Success?
    ensures var after := CompilePath(req, host, files).files;
      EvalSpec(req, host, false, after) == Raised(OptionalData)
  {
    var cacheFile := CacheFileOf(host.dataFolder, req.file);
    RecordUnreadable(cacheFile, DigestsOf(req), req.props, host.compiler(req.file, req.props).value);
  }

  /** Running a .kit file this code wrote itself throws the same way. */
  lemma WrittenKitThrows(req: Request, host: Host, files: map<File, seq<Field>>, d: Digests, c: CompiledScript)
    requires Extension(req.file) == "kit"
    ensures EvalSpec(req, host, false, files[req.file := KtsRecord(d, req.props, c)]) == Raised(OptionalData)
  {
    RecordUnreadable(req.file, d, req.props, c);
  }
}
