/**
 * The batch queue of the service worker (background.js:5-227): the one state record every event
 * reads and writes, the message handlers that start, stop and query a batch, one iteration of
 * `processNextFileInQueue`, the status cache written by `sendStatusUpdate`, startup recovery of
 * a persisted record, and the download listener that renames exports.
 *
 * Each event is a pure transition on `Snapshot`, the record as it is persisted; the class
 * `Driver` holds the same fields and performs the events in place, each method proved equal to
 * its transition. `processNextFileInQueue` is cut at its one `await`: `Advance` runs up to the
 * worker's first browser call, `Settle` from the worker's result to the end of the iteration,
 * and stop messages and downloads may arrive in between.
 */
module Batch {

  import opened Wrappers
  import opened Text
  import opened Names
  import opened Polling
  import opened Worker

  /** The configuration sent with a start request; the initial empty object reads as zero waits. */
  datatype Config = Config(promptWaitTime: int, generationWaitTime: int)

  const NoConfig: Config := Config(0, 0)

  /** `automationState` (background.js:5-20). `results` maps a file name to its URL or its error. */
  datatype Snapshot = Snapshot(
    isRunning: bool,
    shouldStop: bool,
    currentStep: string,
    currentDetails: string,
    progress: real,
    fileQueue: seq<FileItem>,
    totalFiles: nat,
    currentFileIndex: nat,
    currentConfig: Config,
    results: map<string, string>,
    currentFileBaseName: Option<string>)

  const Initial: Snapshot := Snapshot(false, false, "", "", 0.0, [], 0, 0, NoConfig, map[], None)

  /** While a batch runs, the index stays within the queue and each finished file added at most one result. */
  predicate Inv(s: Snapshot) {
    s.isRunning ==> s.currentFileIndex <= s.totalFiles == |s.fileQueue| && |s.results| <= s.currentFileIndex
  }

  /** What an iteration reads before it touches the queue: a pending index names a queued file. */
  predicate QueueCovers(s: Snapshot) {
    s.currentFileIndex < s.totalFiles ==> s.currentFileIndex < |s.fileQueue|
  }

  /** `sendStatusUpdate` (background.js:213-217): the status cache takes the three values. */
  function Publish(s: Snapshot, step: string, details: string, progress: real): (r: Snapshot)
    ensures r.currentStep == step && r.currentDetails == details && r.progress == progress
    ensures OnlyStatusChanged(s, r)
  {
    s.(currentStep := step, currentDetails := details, progress := progress)
  }

  // ----- start, stop, status (background.js:72-120) -----

  const AlreadyRunningError: string := "Automation is already running."

  /** The record an accepted start request installs before the first iteration (background.js:79-89). */
  function Accept(s: Snapshot, files: seq<FileItem>, config: Config): (r: Snapshot)
    ensures Inv(r) && r.isRunning && !r.shouldStop
    ensures r.fileQueue == files && r.totalFiles == |files| && r.currentFileIndex == 0
    ensures r.results == map[] && r.currentConfig == config
    ensures r.currentStep == s.currentStep && r.currentDetails == s.currentDetails && r.progress == s.progress
    ensures r.currentFileBaseName == s.currentFileBaseName
  {
    s.(isRunning := true, shouldStop := false, fileQueue := files, totalFiles := |files|,
       currentFileIndex := 0, currentConfig := config, results := map[])
  }

  const StoppingStep: string := "⏹️ Stopping..."
  const StoppingDetails: string := "Will stop after the current file."

  /**
   * A stop request: while a batch runs it raises `shouldStop` and announces that the batch will
   * stop after the current file; otherwise nothing changes. The batch itself keeps running.
   */
  function RequestStop(s: Snapshot): (r: Snapshot)
    ensures !s.isRunning ==> r == s
    ensures s.isRunning ==> r.isRunning && r.shouldStop && r.currentStep == StoppingStep && r.currentDetails == StoppingDetails
    ensures s.isRunning ==> r == s.(shouldStop := true, currentStep := StoppingStep, currentDetails := StoppingDetails)
    ensures r.fileQueue == s.fileQueue && r.totalFiles == s.totalFiles && r.currentFileIndex == s.currentFileIndex
    ensures r.results == s.results && r.progress == s.progress && r.currentFileBaseName == s.currentFileBaseName
    ensures Inv(s) ==> Inv(r)
  {
    if s.isRunning then Publish(s.(shouldStop := true), StoppingStep, StoppingDetails, s.progress) else s
  }

  /** Stopping twice is stopping once. */
  lemma StopIsIdempotent(s: Snapshot)
    ensures RequestStop(RequestStop(s)) == RequestStop(s)
  {
  }

  /** The reply to a status query (background.js:99-106). */
  datatype StatusReply = StatusReply(
    isRunning: bool, currentStep: string, currentDetails: string, progress: real,
    shouldStop: bool, results: map<string, string>)

  function StatusOf(s: Snapshot): (r: StatusReply)
    ensures r.isRunning == s.isRunning && r.shouldStop == s.shouldStop && r.results == s.results
    ensures r.currentStep == s.currentStep && r.currentDetails == s.currentDetails && r.progress == s.progress
  {
    StatusReply(s.isRunning, s.currentStep, s.currentDetails, s.progress, s.shouldStop, s.results)
  }

  /** A status query reports what the last status update wrote, whatever came before it. */
  lemma StatusShowsLastPublish(s: Snapshot, t: Snapshot, step: string, details: string, progress: real)
    requires s.isRunning == t.isRunning && s.shouldStop == t.shouldStop && s.results == t.results
    ensures StatusOf(Publish(s, step, details, progress)) == StatusOf(Publish(t, step, details, progress))
    ensures var reply := StatusOf(Publish(s, step, details, progress));
            reply.currentStep == step && reply.currentDetails == details && reply.progress == progress
  {
  }

  // ----- one iteration (background.js:149-209) -----

  /** How an iteration begins: the batch was stopped, it is complete, or a file was handed to the worker. */
  datatype Iteration = BatchStopped | BatchComplete(successCount: nat, failureCount: int) | FileStarted(file: FileItem, fileName: string)

  const StoppedStep: string := "⏹️ Automation stopped"
  const StoppedDetails: string := "User cancelled."
  const CompleteStep: string := "✅ Batch complete!"

  /** The share of the batch already behind, as the status shows it while file `index` is processed. */
  function Percent(index: nat, total: nat): (p: real)
    requires index < total
    ensures 0.0 <= p < 100.0
    ensures index == 0 ==> p == 0.0
  {
    var q := index as real / total as real;
    assert q < 1.0 by {
      assert q * total as real == index as real;
    }
    q * 100.0
  }

  /** A result counts as a success when it is a URL. */
  predicate IsSuccessValue(v: string) {
    StartsWith(v, "http")
  }

  /** The number of results whose value starts with "http" (background.js:168). */
  function SuccessCount(results: map<string, string>): (n: nat)
    ensures n <= |results|
  {
    var urls := set k | k in results && IsSuccessValue(results[k]);
    assert results.Keys == urls + (results.Keys - urls);
    |urls|
  }

  function CompleteDetails(successCount: nat, failureCount: int): string {
    "Success: " + NatToString(successCount) + ", Failed: " + IntToString(failureCount)
  }

  function ProcessingStep(index: nat, total: nat): string {
    "📄 Processing file " + NatToString(index + 1) + "/" + NatToString(total)
  }

  /** The status-only part of an update: everything but the cache is as before. */
  predicate OnlyStatusChanged(s: Snapshot, r: Snapshot) {
    r == s.(currentStep := r.currentStep, currentDetails := r.currentDetails, progress := r.progress)
  }

  /**
   * The synchronous start of an iteration (background.js:149-186). A pending stop ends the batch
   * and empties the queue without recording anything; an exhausted queue ends the batch at 100%
   * and reports how many results are URLs; otherwise the next file is announced with the share
   * of the batch already behind.
   */
  function Begin(s: Snapshot): (r: (Snapshot, Iteration))
    requires QueueCovers(s)
    ensures r.0.results == s.results && r.0.currentFileIndex == s.currentFileIndex && r.0.totalFiles == s.totalFiles
    ensures r.0.currentConfig == s.currentConfig && r.0.currentFileBaseName == s.currentFileBaseName
    ensures s.shouldStop ==>
              r.1 == BatchStopped && !r.0.isRunning && !r.0.shouldStop && r.0.fileQueue == []
              && r.0.currentStep == StoppedStep && r.0.currentDetails == StoppedDetails && r.0.progress == s.progress
    ensures !s.shouldStop && s.currentFileIndex >= s.totalFiles ==>
              r.1 == BatchComplete(SuccessCount(s.results), s.totalFiles - SuccessCount(s.results))
              && !r.0.isRunning && !r.0.shouldStop && r.0.fileQueue == [] && r.0.progress == 100.0
              && r.0.currentStep == CompleteStep && r.0.currentDetails == CompleteDetails(r.1.successCount, r.1.failureCount)
    ensures !s.shouldStop && s.currentFileIndex < s.totalFiles ==>
              r.1 == FileStarted(s.fileQueue[s.currentFileIndex], FileName(s.fileQueue[s.currentFileIndex]))
              && OnlyStatusChanged(s, r.0) && r.0.currentDetails == r.1.fileName
              && r.0.currentStep == ProcessingStep(s.currentFileIndex, s.totalFiles)
              && r.0.progress == Percent(s.currentFileIndex, s.totalFiles) && 0.0 <= r.0.progress < 100.0
    ensures Inv(s) ==> Inv(r.0)
    ensures Inv(s) && s.isRunning && r.1.BatchComplete? ==> r.1.failureCount >= 0
  {
    if s.shouldStop then
      (Publish(s.(isRunning := false, shouldStop := false, fileQueue := []), StoppedStep, StoppedDetails, s.progress), BatchStopped)
    else if s.currentFileIndex >= s.totalFiles then
      var successCount := SuccessCount(s.results);
      var failureCount := s.totalFiles - successCount;
      (Publish(s.(isRunning := false, fileQueue := []), CompleteStep, CompleteDetails(successCount, failureCount), 100.0),
       BatchComplete(successCount, failureCount))
    else
      var file := s.fileQueue[s.currentFileIndex];
      var fileName := FileName(file);
      (Publish(s, ProcessingStep(s.currentFileIndex, s.totalFiles), fileName, Percent(s.currentFileIndex, s.totalFiles)),
       FileStarted(file, fileName))
  }

  const OpeningStep: string := "🌐 Opening Gamma.app..."
  const OpeningDetails: string := "Creating new browser tab"

  /**
   * The worker up to its first browser call (background.js:242-249): the file's download base
   * name is set for the download listener and the tab opening is announced.
   */
  function WorkerStart(s: Snapshot, fileName: string): (r: Snapshot)
    ensures r.currentFileBaseName == Some(DownloadBaseName(fileName))
    ensures r.currentStep == OpeningStep && r.currentDetails == OpeningDetails
    ensures r.progress == s.progress && r.results == s.results && r.isRunning == s.isRunning && r.shouldStop == s.shouldStop
    ensures r.fileQueue == s.fileQueue && r.currentFileIndex == s.currentFileIndex && r.totalFiles == s.totalFiles
    ensures r.currentConfig == s.currentConfig
    ensures Inv(s) ==> Inv(r)
  {
    Publish(s.(currentFileBaseName := Some(DownloadBaseName(fileName))), OpeningStep, OpeningDetails, s.progress)
  }

  /** Everything an iteration does before its first `await`: `Begin`, then the worker's opening. */
  function Advance(s: Snapshot): (r: (Snapshot, Iteration))
    requires QueueCovers(s)
    ensures r.1 == Begin(s).1
    ensures r.0.results == s.results && r.0.currentFileIndex == s.currentFileIndex && r.0.totalFiles == s.totalFiles
    ensures r.0.isRunning == Begin(s).0.isRunning && r.0.shouldStop == Begin(s).0.shouldStop && r.0.fileQueue == Begin(s).0.fileQueue
    ensures r.1.FileStarted? ==> r.0.currentFileBaseName == Some(DownloadBaseName(r.1.fileName))
    ensures r.1.FileStarted? ==> r.0 == WorkerStart(Begin(s).0, r.1.fileName)
    ensures !r.1.FileStarted? ==> r.0 == Begin(s).0
    ensures Inv(s) ==> Inv(r.0)
  {
    var (t, it) := Begin(s);
    if it.FileStarted? then (WorkerStart(t, it.fileName), it) else (t, it)
  }

  const FileCompleteStep: string := "✅ File complete!"
  const FileCompleteDetails: string := "Closing tab..."
  const FileFailedStep: string := "❌ File failed"

  /**
   * The status the worker leaves behind (background.js:257-301): the file-complete notice when it
   * returns normally; otherwise the failure notice with the error, and the download base name
   * cleared.
   */
  function WorkerEnd(s: Snapshot, run: WorkerRun): (r: Snapshot)
    ensures TryError(run).None? ==> r == Publish(s, FileCompleteStep, FileCompleteDetails, s.progress)
    ensures TryError(run).Some? ==> r.currentStep == FileFailedStep && r.currentDetails == TryError(run).value
                                    && r.currentFileBaseName == None
    ensures r.isRunning == s.isRunning && r.shouldStop == s.shouldStop && r.results == s.results && r.progress == s.progress
    ensures r.fileQueue == s.fileQueue && r.totalFiles == s.totalFiles && r.currentFileIndex == s.currentFileIndex
    ensures r.currentConfig == s.currentConfig
  {
    match TryError(run)
    case None => Publish(s, FileCompleteStep, FileCompleteDetails, s.progress)
    case Some(m) => Publish(s.(currentFileBaseName := None), FileFailedStep, m, s.progress)
  }

  const ErrorPrefix: string := "Error: "

  /** The value stored for a file: the URL, or "Error: " and the worker's message. */
  function Record(outcome: FileOutcome): (v: string)
    ensures outcome.Failure? ==> StartsWith(v, ErrorPrefix) && v[|ErrorPrefix|..] == outcome.message
    ensures outcome.Failure? ==> !IsSuccessValue(v)
    ensures outcome.Success? ==> v == outcome.url
  {
    match outcome
    case Success(url) => url
    case Failure(message) =>
      var v := ErrorPrefix + message;
      assert v[0] == 'E';
      v
  }

  /**
   * The end of an iteration (background.js:195-205): exactly one entry, under the file's name, is
   * written (a second file of the same name overwrites the first), and the index moves on by one.
   */
  function Finish(s: Snapshot, fileName: string, outcome: FileOutcome): (r: Snapshot)
    ensures r.results.Keys == s.results.Keys + {fileName} && r.results[fileName] == Record(outcome)
    ensures forall k :: k in s.results && k != fileName ==> r.results[k] == s.results[k]
    ensures |r.results| <= |s.results| + 1
    ensures fileName !in s.results ==> |r.results| == |s.results| + 1
    ensures r.currentFileIndex == s.currentFileIndex + 1
    ensures r.isRunning == s.isRunning && r.shouldStop == s.shouldStop && r.fileQueue == s.fileQueue && r.totalFiles == s.totalFiles
    ensures r == s.(results := r.results, currentFileIndex := r.currentFileIndex)
    ensures Inv(s) && s.currentFileIndex < s.totalFiles ==> Inv(r)
  {
    var results := s.results[fileName := Record(outcome)];
    assert results.Keys == s.results.Keys + {fileName};
    assert fileName in s.results ==> results.Keys == s.results.Keys;
    s.(results := results, currentFileIndex := s.currentFileIndex + 1)
  }

  /** From the worker's result to the end of the iteration: the worker's last status, then the record. */
  function Settle(s: Snapshot, fileName: string, run: WorkerRun): (r: Snapshot)
    ensures r == Finish(WorkerEnd(s, run), fileName, WorkerOutcome(fileName, run))
    ensures r.isRunning == s.isRunning && r.shouldStop == s.shouldStop
    ensures Inv(s) && s.currentFileIndex < s.totalFiles ==> Inv(r)
  {
    Finish(WorkerEnd(s, run), fileName, WorkerOutcome(fileName, run))
  }

  /**
   * A stop is honoured within one file. Arriving between iterations, it ends the batch at the next
   * one with no new result; arriving while a file is in flight, that file still gets its one
   * result, and the iteration after it ends the batch.
   */
  lemma StopEndsBatchWithinOneFile(s: Snapshot, fileName: string, run: WorkerRun)
    requires Inv(s) && s.isRunning && s.currentFileIndex < s.totalFiles
    ensures var r := Advance(RequestStop(s));
            r.1 == BatchStopped && !r.0.isRunning && r.0.results == s.results && r.0.fileQueue == []
    ensures var t := Settle(RequestStop(s), fileName, run);
            var r := Advance(t);
            r.1 == BatchStopped && !r.0.isRunning && r.0.fileQueue == []
            && r.0.results.Keys == s.results.Keys + {fileName} && r.0.currentFileIndex == s.currentFileIndex + 1
  {
    var u := RequestStop(s);
    assert u.shouldStop && Inv(u);
    var t := Settle(u, fileName, run);
    assert t.shouldStop && Inv(t);
  }

  /** Startup recovery (background.js:23-36): a record persisted mid-batch comes back stopped and with an empty queue. */
  function Recover(s: Snapshot, persisted: Option<Snapshot>): (r: Snapshot)
    ensures persisted.None? ==> r == s
    ensures persisted.Some? ==> !r.isRunning
    ensures persisted.Some? && persisted.value.isRunning ==>
              !r.shouldStop && r.fileQueue == [] && r.results == persisted.value.results
              && r.currentFileIndex == persisted.value.currentFileIndex && r.totalFiles == persisted.value.totalFiles
    ensures persisted.Some? && persisted.value.isRunning ==>
              r == persisted.value.(isRunning := false, shouldStop := false, fileQueue := [])
    ensures persisted.Some? && !persisted.value.isRunning ==> r == persisted.value
    ensures Inv(r) || r == s
  {
    match persisted
    case None => s
    case Some(p) => if p.isRunning then p.(isRunning := false, shouldStop := false, fileQueue := []) else p
  }

  /**
   * The download listener (background.js:46-64): the suggested new name, if any; a rename
   * consumes the base name so that only the first matching download of a file is renamed.
   */
  function Download(s: Snapshot, filename: string, referrer: string): (r: (Snapshot, Option<string>))
    ensures r.1 == DownloadSuggestion(s.isRunning, s.currentFileBaseName, filename, referrer)
    ensures r.1.None? ==> r.0 == s
    ensures r.1.Some? ==> r.0 == s.(currentFileBaseName := None)
  {
    var suggestion := DownloadSuggestion(s.isRunning, s.currentFileBaseName, filename, referrer);
    if suggestion.Some? then (s.(currentFileBaseName := None), suggestion) else (s, suggestion)
  }

  /** Once a file's export has been renamed, no later download is renamed until the next file starts. */
  lemma OneRenamePerFile(s: Snapshot, first: string, firstReferrer: string, later: string, laterReferrer: string)
    requires Download(s, first, firstReferrer).1.Some?
    ensures Download(Download(s, first, firstReferrer).0, later, laterReferrer).1 == None
  {
  }

  // ----- whole batches -----

  /** One uninterrupted iteration, the worker playing `run` when a file is started. */
  function Step(s: Snapshot, run: WorkerRun): (r: Snapshot)
    requires Inv(s) && s.isRunning
    ensures Inv(r)
  {
    var (t, it) := Advance(s);
    if it.FileStarted? then Settle(t, it.fileName, run) else t
  }

  /** One iteration without a stop, while files remain: the next queued file is recorded and the index moves on. */
  lemma StepRecordsNextFile(s: Snapshot, run: WorkerRun)
    requires Inv(s) && s.isRunning && !s.shouldStop && s.currentFileIndex < s.totalFiles
    ensures var r := Step(s, run);
            r.isRunning && !r.shouldStop && r.fileQueue == s.fileQueue && r.totalFiles == s.totalFiles
            && r.currentFileIndex == s.currentFileIndex + 1
            && r.results.Keys == s.results.Keys + {FileName(s.fileQueue[s.currentFileIndex])}
  {
    var (t, it) := Advance(s);
    assert it == FileStarted(s.fileQueue[s.currentFileIndex], FileName(s.fileQueue[s.currentFileIndex]));
  }

  /** One iteration as the timer chain performs it: nothing happens once the batch has ended. */
  function Next(s: Snapshot, run: WorkerRun): Snapshot {
    if Inv(s) && s.isRunning then Step(s, run) else s
  }

  /** `states` are the records after each of the uninterrupted iterations the worker runs `runs` play out. */
  ghost predicate IsRun(states: seq<Snapshot>, runs: seq<WorkerRun>) {
    |states| == |runs| + 1 && forall k {:trigger runs[k]} :: 0 <= k < |runs| ==> states[k + 1] == Next(states[k], runs[k])
  }

  /** The names the first `j` files of a queue are recorded under. */
  function NamesUpTo(q: seq<FileItem>, j: nat): set<string>
    requires j <= |q|
  {
    if j == 0 then {} else NamesUpTo(q, j - 1) + {FileName(q[j - 1])}
  }

  lemma {:induction false} NamesUpToMember(q: seq<FileItem>, j: nat, x: string)
    requires j <= |q|
    ensures x in NamesUpTo(q, j) <==> exists k :: 0 <= k < j && FileName(q[k]) == x
  {
    if j > 0 {
      NamesUpToMember(q, j - 1, x);
    }
  }

  /** No two files of the queue share a name. */
  predicate DistinctNames(q: seq<FileItem>) {
    forall i, j :: 0 <= i < j < |q| ==> FileName(q[i]) != FileName(q[j])
  }

  lemma {:induction false} DistinctNamesCount(q: seq<FileItem>, j: nat)
    requires DistinctNames(q) && j <= |q|
    ensures |NamesUpTo(q, j)| == j
  {
    if j > 0 {
      DistinctNamesCount(q, j - 1);
      NamesUpToMember(q, j - 1, FileName(q[j - 1]));
      assert FileName(q[j - 1]) !in NamesUpTo(q, j - 1);
    }
  }

  /** One more recorded file adds its name to the recorded ones. */
  lemma RecordedNamesGrow(s: Snapshot, t: Snapshot, q: seq<FileItem>, k: nat, j: nat)
    requires k < |q| && j == k + 1
    requires s.results.Keys == NamesUpTo(q, k)
    requires t.results.Keys == s.results.Keys + {FileName(q[k])}
    ensures t.results.Keys == NamesUpTo(q, j)
  {
  }

  /** The record after `k` uninterrupted iterations of a batch of `files`, none of them stopped. */
  predicate RecordedSoFar(s: Snapshot, files: seq<FileItem>, k: nat) {
    Inv(s) && s.isRunning && !s.shouldStop && s.fileQueue == files && s.totalFiles == |files|
    && s.currentFileIndex == k && k <= |files| && s.results.Keys == NamesUpTo(files, k)
  }

  /** One iteration of an unstopped batch records the next file. */
  lemma NextRecordsFile(s: Snapshot, t: Snapshot, run: WorkerRun, files: seq<FileItem>, k: nat)
    requires RecordedSoFar(s, files, k) && k < |files| && t == Next(s, run)
    ensures RecordedSoFar(t, files, k + 1)
  {
    StepRecordsNextFile(s, run);
    RecordedNamesGrow(s, t, files, k, k + 1);
  }

  /** Every iteration of an unstopped run of worker results, one per file, records its file. */
  lemma RunRecordsEveryFile(s0: Snapshot, files: seq<FileItem>, config: Config, runs: seq<WorkerRun>, states: seq<Snapshot>)
    requires |runs| == |files| && IsRun(states, runs) && states[0] == Accept(s0, files, config)
    ensures RecordedSoFar(states[|runs|], files, |files|)
  {
    var k := 0;
    assert states[0].results.Keys == {} == NamesUpTo(files, 0);
    while k < |runs|
      invariant k <= |runs| && RecordedSoFar(states[k], files, k)
    {
      assert states[k + 1] == Next(states[k], runs[k]);
      NextRecordsFile(states[k], states[k + 1], runs[k], files, k);
      k := k + 1;
    }
  }

  /**
   * A batch nobody stops, with one worker run per file, records every file under its own name and
   * then completes at 100%, reporting successes and failures that add up to the number of files;
   * with distinct names there is one result per file.
   */
  lemma BatchRecordsEveryFile(s0: Snapshot, files: seq<FileItem>, config: Config, runs: seq<WorkerRun>, states: seq<Snapshot>)
    requires |runs| == |files| && IsRun(states, runs) && states[0] == Accept(s0, files, config)
    ensures var done := states[|runs|];
            RecordedSoFar(done, files, |files|)
            && var r := Advance(done);
            !r.0.isRunning && r.0.fileQueue == [] && r.0.progress == 100.0 && r.0.results == done.results
            && r.1 == BatchComplete(SuccessCount(done.results), |files| - SuccessCount(done.results)) && r.1.failureCount >= 0
    ensures DistinctNames(files) ==> |states[|runs|].results| == |files|
  {
    RunRecordsEveryFile(s0, files, config, runs, states);
    if DistinctNames(files) {
      DistinctNamesCount(files, |files|);
    }
  }

  // ----- the state record in place -----

  /** Which continuation of the batch is pending: none, the next iteration, or the worker of a named file. */
  datatype Phase = Idle | Scheduled | InFlight(fileName: string)

  function PhaseAfter(it: Iteration): Phase {
    if it.FileStarted? then InFlight(it.fileName) else Idle
  }

  datatype Reply = Ok | Refused(error: string)

  /** The service worker's `automationState`, updated in place by the events of the batch. */
  class Driver {
    var isRunning: bool
    var shouldStop: bool
    var currentStep: string
    var currentDetails: string
    var progress: real
    var fileQueue: seq<FileItem>
    var totalFiles: nat
    var currentFileIndex: nat
    var currentConfig: Config
    var results: map<string, string>
    var currentFileBaseName: Option<string>
    ghost var phase: Phase

    function State(): Snapshot
      reads this
    {
      Snapshot(isRunning, shouldStop, currentStep, currentDetails, progress, fileQueue, totalFiles,
               currentFileIndex, currentConfig, results, currentFileBaseName)
    }

    /** The invariant, and a pending continuation exactly while a batch runs. */
    ghost predicate Valid()
      reads this
    {
      Inv(State()) && (phase == Idle <==> !isRunning) && (phase.InFlight? ==> currentFileIndex < totalFiles)
    }

    constructor()
      ensures State() == Initial && phase == Idle && Valid()
    {
      isRunning, shouldStop := false, false;
      currentStep, currentDetails, progress := "", "", 0.0;
      fileQueue, totalFiles, currentFileIndex := [], 0, 0;
      currentConfig, results, currentFileBaseName := NoConfig, map[], None;
      phase := Idle;
    }

    /** `sendStatusUpdate` (background.js:213-217); the broadcast to the popup is not modelled. */
    method SendStatusUpdate(step: string, details: string, newProgress: real)
      modifies this
      ensures State() == Publish(old(State()), step, details, newProgress) && phase == old(phase)
    {
      currentStep, currentDetails, progress := step, details, newProgress;
    }

    /** Every field takes the value the given record holds for it. */
    method Assign(p: Snapshot)
      modifies this
      ensures State() == p && phase == old(phase)
    {
      isRunning, shouldStop, currentStep, currentDetails, progress := p.isRunning, p.shouldStop, p.currentStep, p.currentDetails, p.progress;
      fileQueue, totalFiles, currentFileIndex := p.fileQueue, p.totalFiles, p.currentFileIndex;
      currentConfig, results, currentFileBaseName := p.currentConfig, p.results, p.currentFileBaseName;
    }

    /** Startup recovery of the persisted record, before any batch has been started. */
    method Restore(persisted: Option<Snapshot>)
      requires Valid() && phase == Idle
      modifies this
      ensures State() == Recover(old(State()), persisted) && phase == Idle && Valid()
    {
      if persisted.Some? {
        Assign(persisted.value);
        if isRunning {
          isRunning := false;
          shouldStop := false;
          fileQueue := [];
        }
      }
    }

    /** The start request (background.js:72-95): refused while running, otherwise installs the batch and runs its first iteration. */
    method Start(files: seq<FileItem>, config: Config) returns (reply: Reply)
      requires Valid()
      modifies this
      ensures Valid()
      ensures old(isRunning) ==> reply == Refused(AlreadyRunningError) && State() == old(State()) && phase == old(phase)
      ensures !old(isRunning) ==>
                reply == Ok && State() == Advance(Accept(old(State()), files, config)).0
                && phase == PhaseAfter(Advance(Accept(old(State()), files, config)).1)
    {
      if isRunning {
        return Refused(AlreadyRunningError);
      }
      Assign(Accept(State(), files, config));
      phase := Scheduled;
      var _ := BeginNext();
      reply := Ok;
    }

    /** The stop request (background.js:110-119). */
    method Stop() returns (reply: Reply)
      requires Valid()
      modifies this
      ensures reply == Ok && State() == RequestStop(old(State())) && phase == old(phase) && Valid()
    {
      if isRunning {
        shouldStop := true;
        SendStatusUpdate(StoppingStep, StoppingDetails, progress);
      }
      reply := Ok;
    }

    /** The status query (background.js:98-107): reads the record and changes nothing. */
    method GetStatus() returns (reply: StatusReply)
      ensures reply == StatusOf(State())
      ensures reply.currentStep == currentStep && reply.currentDetails == currentDetails && reply.progress == progress
    {
      reply := StatusReply(isRunning, currentStep, currentDetails, progress, shouldStop, results);
    }

    /**
     * A scheduled iteration up to the worker's first browser call (background.js:149-194 and
     * 242-249).
     */
    method BeginNext() returns (it: Iteration)
      requires Valid() && phase == Scheduled
      modifies this
      ensures (State(), it) == Advance(old(State())) && phase == PhaseAfter(it) && Valid()
    {
      if shouldStop {
        it := EndStopped();
      } else if currentFileIndex >= totalFiles {
        it := EndComplete();
      } else {
        it := OpenNextFile();
      }
    }

    /** The pending stop ends the batch (background.js:152-160). */
    method EndStopped() returns (it: Iteration)
      requires Valid() && phase == Scheduled && shouldStop
      modifies this
      ensures (State(), it) == Advance(old(State())) && phase == Idle && Valid()
    {
      ghost var s := State();
      isRunning, shouldStop, fileQueue := false, false, [];
      SendStatusUpdate(StoppedStep, StoppedDetails, progress);
      phase := Idle;
      it := BatchStopped;
      assert Begin(s) == (State(), it);
    }

    /** The exhausted queue ends the batch with its tally (background.js:162-174). */
    method EndComplete() returns (it: Iteration)
      requires Valid() && phase == Scheduled && !shouldStop && currentFileIndex >= totalFiles
      modifies this
      ensures (State(), it) == Advance(old(State())) && phase == Idle && Valid()
    {
      ghost var s := State();
      var successCount := SuccessCount(results);
      var failureCount := totalFiles - successCount;
      it := BatchComplete(successCount, failureCount);
      var r := Publish(State().(isRunning := false, fileQueue := []), CompleteStep, CompleteDetails(successCount, failureCount), 100.0);
      assert Begin(s) == (r, it);
      Assign(r);
      phase := Idle;
    }

    /** The next file is announced and its worker opens (background.js:176-194 and 242-249). */
    method OpenNextFile() returns (it: Iteration)
      requires Valid() && phase == Scheduled && !shouldStop && currentFileIndex < totalFiles
      modifies this
      ensures (State(), it) == Advance(old(State())) && phase == PhaseAfter(it) && Valid()
    {
      ghost var s := State();
      var file := fileQueue[currentFileIndex];
      var fileName := FileName(file);
      SendStatusUpdate(ProcessingStep(currentFileIndex, totalFiles), fileName, Percent(currentFileIndex, totalFiles));
      it := FileStarted(file, fileName);
      assert Begin(s) == (State(), it);
      // the worker's synchronous opening
      currentFileBaseName := Some(DownloadBaseName(fileName));
      SendStatusUpdate(OpeningStep, OpeningDetails, progress);
      phase := InFlight(fileName);
    }

    /**
     * `automateGammaPresentation` from its first browser call on (background.js:251-305): the
     * outcome it hands back, the status it leaves, and in `closes` the requests to close its tab.
     */
    method RunWorker(fileName: string, run: WorkerRun) returns (outcome: FileOutcome, ghost closes: nat)
      modifies this
      ensures outcome == WorkerOutcome(fileName, run) && closes == CloseAttempts(run)
      ensures State() == WorkerEnd(old(State()), run) && phase == old(phase)
    {
      closes := 0;
      var tabId: nat := 0;
      var error: Option<string> := None;
      var url := "";
      match run.tab {
        case TabCreateFailed(message) =>
          error := Some(message);
        case TabCreated(id) =>
          tabId := id;
          SendStatusUpdate("⏳ Loading page...", "Waiting for Gamma.app to load", progress);
          if run.loadCrashed {
            error := Some(CrashError);
          } else {
            SendStatusUpdate("🤖 Starting automation...", "Executing automation steps", progress);
            match run.script {
              case ScriptThrew(message) =>
                error := Some(message);
              case ScriptReturned(value) =>
                if value == StoppedMarker {
                  error := Some(UserStopError);
                } else {
                  url := value;
                  SendStatusUpdate(FileCompleteStep, FileCompleteDetails, progress);
                  closes := closes + 1;
                  error := run.closeError;
                }
            }
          }
      }
      assert error == TryError(run);
      if error.Some? {
        SendStatusUpdate(FileFailedStep, error.value, progress);
        currentFileBaseName := None;
        if tabId != 0 {
          closes := closes + 1;
        }
        outcome := Failure(FailurePrefix(fileName) + error.value);
      } else {
        outcome := Success(url);
      }
    }

    /**
     * The awaited worker of a file and the end of its iteration (background.js:194-208): the
     * outcome is recorded under the file's name and the next iteration is scheduled.
     */
    method FinishFile(fileName: string, run: WorkerRun) returns (outcome: FileOutcome, ghost closes: nat)
      requires Valid() && phase == InFlight(fileName)
      modifies this
      ensures outcome == WorkerOutcome(fileName, run) && closes == CloseAttempts(run)
      ensures State() == Settle(old(State()), fileName, run) && phase == Scheduled && Valid()
    {
      outcome, closes := RunWorker(fileName, run);
      results := results[fileName := Record(outcome)];
      currentFileIndex := currentFileIndex + 1;
      phase := Scheduled;
    }

    /** The download listener (background.js:46-64): the name to suggest, or `None` to leave the download as it is. */
    method OnDeterminingFilename(filename: string, referrer: string) returns (suggestion: Option<string>)
      requires Valid()
      modifies this
      ensures (State(), suggestion) == Download(old(State()), filename, referrer) && phase == old(phase) && Valid()
    {
      if isRunning && currentFileBaseName.Some? && currentFileBaseName.value != [] {
        if referrer != [] && StartsWith(referrer, GammaDocs) {
          suggestion := Some(RenamedDownload(currentFileBaseName.value, filename));
          currentFileBaseName := None;
          return;
        }
      }
      suggestion := None;
    }
  }
}
