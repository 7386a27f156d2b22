/** The Kotlin scripting API's result type as the plugin uses it:
    ScriptDiagnostic with its severity, ResultWithDiagnostics with its
    reports, and the onSuccess / onFailure combinators. */
module Diagnostics {
  import opened Kotlin

  /** ScriptDiagnostic.Severity, in declaration order. */
  datatype Severity = DEBUG | INFO | WARNING | ERROR | FATAL

  function Rank(s: Severity): nat
  {
    match s
    case DEBUG => 0
    case INFO => 1
    case WARNING => 2
    case ERROR => 3
    case FATAL => 4
  }

  /** Enum comparison `a > b`. */
  predicate Above(a: Severity, b: Severity)
  {
    Rank(a) > Rank(b)
  }

  /** Only DEBUG is not above DEBUG. */
  lemma AboveDebug(s: Severity)
    ensures Above(s, DEBUG) <==> s != DEBUG
  {
  }

  /** A java.lang.Throwable as far as diagnostics show it: its toString()
      and its getMessage(), which may be null. */
  datatype Throwable = Throwable(text: string, message: Option<string>)

  /** A ScriptDiagnostic: message, severity, source path and the exception
      it wraps, if any. */
  datatype ScriptDiagnostic = ScriptDiagnostic(
    message: string, severity: Severity, sourcePath: Option<string>, exception: Option<Throwable>)

  /** Throwable.asDiagnostics(path = p): the message is the exception's
      message or, when it has none, its toString(); the severity is ERROR. */
  function AsDiagnostic(e: Throwable, path: Option<string>): (d: ScriptDiagnostic)
    ensures d.severity == ERROR && d.exception == Some(e) && d.sourcePath == path
    ensures e.message.Some? ==> d.message == e.message.value
    ensures e.message.None? ==> d.message == e.text
  {
    ScriptDiagnostic(if e.message.Some? then e.message.value else e.text, ERROR, path, Some(e))
  }

  /** An EvaluationResult: what the script's evaluation returned, as text. */
  datatype EvaluationResult = EvaluationResult(returnValue: string)

  /** ResultWithDiagnostics<T>. */
  datatype Result<T> = Success(value: T, reports: seq<ScriptDiagnostic>) | Failure(reports: seq<ScriptDiagnostic>)

  /** `reports + result`: the reports are put in front of the result's own. */
  function Prepend<T>(reports: seq<ScriptDiagnostic>, r: Result<T>): (p: Result<T>)
    ensures p.Success? <==> r.Success?
    ensures p.Success? ==> p.value == r.value
    ensures p.reports == reports + r.reports
  {
    match r
    case Success(v, rs) => Success(v, reports + rs)
    case Failure(rs) => Failure(reports + rs)
  }

  /** onSuccess(body): a failure passes through unchanged; a success runs body
      on its value and puts its own reports in front of body's result. */
  function OnSuccess<T, U>(r: Result<T>, body: T -> Result<U>): (p: Result<U>)
    ensures r.Failure? ==> p == Failure(r.reports)
    ensures r.Success? ==> p == Prepend(r.reports, body(r.value))
  {
    match r
    case Success(v, rs) => Prepend(rs, body(v))
    case Failure(rs) => Failure(rs)
  }

  /** onSuccess is associative in the way its reports accumulate: the
      reports of both stages come before the last stage's own reports. */
  lemma OnSuccessTwice<T, U, V>(r: Result<T>, f: T -> Result<U>, g: U -> Result<V>)
    requires r.Success? && f(r.value).Success?
    ensures OnSuccess(OnSuccess(r, f), g) == Prepend(r.reports + f(r.value).reports, g(f(r.value).value))
  {
    var p := OnSuccess(r, f);
    assert p.value == f(r.value).value;
    assert (r.reports + f(r.value).reports) + g(p.value).reports ==
           r.reports + (f(r.value).reports + g(p.value).reports);
  }

  /** The text a report line shows: the message, then ": exception" when an
      exception is attached. */
  function ReportText(d: ScriptDiagnostic): (t: string)
    ensures d.exception.None? ==> t == d.message
    ensures d.exception.Some? ==> t == d.message + ": " + d.exception.value.text
  {
    d.message + if d.exception.None? then "" else ": " + d.exception.value.text
  }
}
