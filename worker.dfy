/**
 * The per-file worker `automateGammaPresentation` (background.js:234-306), reduced to its control
 * flow: which error its `try` block ends with, what it returns or throws, and how many times it
 * asks the browser to close the tab it opened. Every browser call is an observation in
 * `WorkerRun`; the page automation itself is the `script` outcome.
 */
module Worker {

  import opened Wrappers
  import opened Text
  import opened Polling

  datatype TabCreation = TabCreated(id: nat) | TabCreateFailed(message: string)

  /**
   * One run as the browser plays it: the tab creation, whether the tab crashes while loading,
   * the injected script's outcome and, on the success path, the error `tabs.remove` throws, if
   * any. (Whether the retry in the `catch` throws is only logged, so it is not an input.)
   */
  datatype WorkerRun = WorkerRun(tab: TabCreation, loadCrashed: bool, script: ScriptOutcome, closeError: Option<string>)

  /** A file's outcome as the batch loop sees it: the URL returned, or the message of the error thrown. */
  datatype FileOutcome = Success(url: string) | Failure(message: string)

  const CrashError: string := "Tab crashed while loading"

  function FailurePrefix(fileName: string): string {
    "Automation failed for " + fileName + ": "
  }

  /** The script got as far as returning a usable value: the success path, up to closing the tab. */
  predicate ReachesClose(run: WorkerRun) {
    run.tab.TabCreated? && !run.loadCrashed && run.script.ScriptReturned? && run.script.value != StoppedMarker
  }

  /** The error the worker's `try` block ends with, `None` when it returns normally. */
  function TryError(run: WorkerRun): (err: Option<string>)
    ensures err.None? <==> ReachesClose(run) && run.closeError.None?
    ensures run.tab.TabCreateFailed? ==> err == Some(run.tab.message)
    ensures run.tab.TabCreated? && run.loadCrashed ==> err == Some(CrashError)
    ensures run.tab.TabCreated? && !run.loadCrashed && run.script.ScriptThrew? ==> err == Some(run.script.message)
    ensures run.tab.TabCreated? && !run.loadCrashed && run.script == ScriptReturned(StoppedMarker) ==> err == Some(UserStopError)
    ensures ReachesClose(run) ==> err == run.closeError
  {
    match run.tab
    case TabCreateFailed(m) => Some(m)
    case TabCreated(_) =>
      if run.loadCrashed then Some(CrashError)
      else
        match run.script
        case ScriptThrew(m) => Some(m)
        case ScriptReturned(v) => if v == StoppedMarker then Some(UserStopError) else run.closeError
  }

  /**
   * What the worker hands back: the script's value when everything succeeds, otherwise a failure
   * whose message names the file and carries the original error.
   */
  function WorkerOutcome(fileName: string, run: WorkerRun): (r: FileOutcome)
    ensures r.Success? <==> ReachesClose(run) && run.closeError.None?
    ensures r.Success? ==> r.url == run.script.value
    ensures r.Failure? ==> StartsWith(r.message, FailurePrefix(fileName))
    ensures r.Failure? ==> r.message[|FailurePrefix(fileName)|..] == TryError(run).value
  {
    match TryError(run)
    case None => Success(run.script.value)
    case Some(m) =>
      var msg := FailurePrefix(fileName) + m;
      assert msg[..|FailurePrefix(fileName)|] == FailurePrefix(fileName);
      Failure(msg)
  }

  /**
   * How many times `chrome.tabs.remove` is called: never without a tab; at least once on every
   * path once a (truthy) tab id exists; twice only when the success-path close throws and the
   * `catch` tries again. Tab id 0 is falsy, so the `catch` skips its close: only the unguarded
   * success-path close is made.
   */
  function CloseAttempts(run: WorkerRun): (n: nat)
    ensures n <= 2
    ensures run.tab.TabCreateFailed? ==> n == 0
    ensures run.tab.TabCreated? && run.tab.id != 0 ==> n >= 1
    ensures n == 2 <==> ReachesClose(run) && run.tab.id != 0 && run.closeError.Some?
    ensures run.tab == TabCreated(0) ==> (n == 1 <==> ReachesClose(run)) && n <= 1
  {
    var onSuccessPath := if ReachesClose(run) then 1 else 0;
    var inCatch := if TryError(run).Some? && run.tab.TabCreated? && run.tab.id != 0 then 1 else 0;
    onSuccessPath + inCatch
  }

  /**
   * A stop noticed inside the page reaches the batch as an ordinary failure: through the marker
   * value when the script returns it, and through the step-failure prefix when a stop check threw.
   */
  lemma StopsAreReportedAsFailures(fileName: string, id: nat)
    ensures WorkerOutcome(fileName, WorkerRun(TabCreated(id), false, ScriptReturned(StoppedMarker), None))
            == Failure(FailurePrefix(fileName) + UserStopError)
    ensures WorkerOutcome(fileName, WorkerRun(TabCreated(id), false, ScriptVerdict(StopError), None))
            == Failure(FailurePrefix(fileName) + StepFailedPrefix + StopError)
  {
    StopCheckErrorIsNotUserStop();
  }
}
