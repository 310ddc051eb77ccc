# Gamma batch automation: a Dafny model of the service worker's core

The Chrome extension turns a folder of text files into Gamma.app presentations, one file at a
time. Its service worker, `background.js`, holds one state record, `automationState`. Three kinds
of message act on it: start a batch, stop it, and query its status. A timer chain runs the batch
one iteration per file. Each iteration opens a tab, injects an automation script, records the
resulting URL or error under the file's name, and moves on. A download listener renames the
exported file after the file being processed.

This project models that core:

- `batch.dfy` (module `Batch`) holds the state record and its events.
  - Each event is a pure transition on the datatype `Snapshot`.
  - The class `Batch.Driver` keeps the same fields and performs each event in place. Every method is proved equal to its transition.
  - One iteration is cut at its single `await` into `Advance` and `Settle`. A stop message or a download can therefore arrive while a file is in flight.
  - A ghost `phase` field records which continuation is pending.
- The whole-batch lemmas state the behaviour of a batch nobody stops. Every file is recorded under its own name. The batch completes at 100%, and successes plus failures equal the number of files.
- `worker.dfy` (module `Worker`) is the per-file worker `automateGammaPresentation`, reduced to its control flow. It covers the error its `try` ends with, what it returns or throws, and how often it asks the browser to close its tab.
- `polling.dfy` (module `Polling`) covers the stop check, the bounded generation wait, the wait for a disabled button, and the classification of a failed script. Each one is either a function of the reply or a loop over a stream of observations.
- `slides.dfy` (module `Slides`) holds the two slide-partitioning functions. They follow the regular expressions they use, with ECMAScript semantics: case-insensitive `Slide`, `\s` as the ECMAScript white-space and line-terminator set, `\d` as ASCII digits, lazy matching up to a lookahead, and `split` with a lookahead separator.
- `names.dfy` (module `Names`) covers the file-name derivations and the download-rename decision.
- `insertion.dfy` (module `Insertion`) is the 100-character chunking of the fallback text insertion.
- `text.dfy` (module `Text`) holds the JavaScript string operations the above rely on: `trim`, `indexOf`, `replace` with a string pattern, `lastIndexOf`, `substring`, `split` on a character, and number formatting.

Browser calls, timers and the page itself are inputs:

- a `WorkerRun` says how tab creation, page load, the injected script and the tab close turned out;
- a `StopReply` is the reply of the status round trip;
- a stream `nat -> GenerationCheck` or `nat -> ButtonTick` gives one observation per poll.

## Model

| member | source | states |
|---|---|---|
| Text.Trim | background.js:142 | the result has no white space at either end, and it sits inside the input with only white space before and after it |
| Text.TrimOfPadded | background.js:451 | trimming a non-empty trimmed string padded with white space gives back exactly that string |
| Text.TrimIdempotent | background.js:451 | trimming twice is trimming once |
| Text.IndexOf | background.js:835 | the result is the first occurrence at or after `from`, and `None` exactly when there is none |
| Text.ReplaceFirst | background.js:178 | only the leftmost occurrence of the pattern is replaced; without an occurrence the string is unchanged |
| Text.LastIndexOf | background.js:51 | the result is -1 or the position of the character, and the character does not occur after it |
| Text.SubstringFrom | background.js:51 | `substring` with a negative start clamps to 0; otherwise the result is the suffix from that index |
| Text.SplitOn | background.js:242 | the pieces contain no separator and joined with it give back the string; there is at least one piece |
| Text.NatToString | background.js:183 | the decimal digits have no leading zero and their value is the number |
| Text.IntToString | background.js:170 | a negative number is written as '-' followed by the digits of its absolute value |
| Slides.HeaderAgreesWithRegex | background.js:140 | the greedy whitespace skip used to find `Slide\s*d` matches exactly where the backtracking regular expression matches |
| Slides.BoundaryFrom | background.js:140 | the lookahead that ends the first slide succeeds first at the result: a newline followed by a header, or the end of the input |
| Slides.FindHeader | background.js:449 | the result is the leftmost header for the digit at or after `from`, and `None` exactly when there is none |
| Slides.ExtractFirstSlide | background.js:139-147 | without `Slide\s*1` the content is returned untouched; otherwise the result is the trimmed span from the leftmost `Slide\s*1` up to the first newline-and-header or the end |
| Slides.SplitSlides | background.js:451 | splitting before each newline that starts a header: the pieces joined by newlines give back the text, the cuts fall exactly at the separators (a cut after every piece but the last, and no separator inside a piece), and the first piece is a prefix of the text |
| Slides.CutsDetermineSplit | background.js:451 | two splits of the same text whose cuts fall exactly at the same positions are the same list of pieces |
| Slides.SplitSlidesIsTheSplit | background.js:451 | any list of pieces that joins to the text and is cut exactly at its separators is `SplitSlides` of the text |
| Slides.TrimAll | background.js:451 | `map(s => s.trim())`: one result per piece, at the same index, the trim of that piece |
| Slides.NonEmpty | background.js:451 | `filter(s => s.length > 0)`: every kept string is non-empty and taken from the input, every non-empty input string is kept, and the result is no longer than the input |
| Slides.NonEmptyInOrder | background.js:451 | filtering a concatenation is concatenating the filtered parts, so the filter keeps the input's order |
| Slides.TrimAllInOrder | background.js:451 | trimming a concatenation is concatenating the trimmed parts |
| Slides.CleanSlides | background.js:451 | every kept piece is trimmed and non-empty, every piece whose trim is non-empty is kept, and there are no more slides than pieces |
| Slides.CleanSlidesInOrder | background.js:451 | cleaning goes piece by piece in order: a single piece gives its trim or nothing when the trim is empty, and cleaning a concatenation concatenates the cleaned parts |
| Slides.ExtractRemainingSlides | background.js:447-458 | the result is empty exactly when no `Slide\s*2` occurs; otherwise it is the cleaned split of the text from the leftmost `Slide\s*2`; every slide is trimmed and non-empty |
| Names.FileName | background.js:178 | without a relative path the file's name; a relative path without "input/" is kept as it is; with one, the name is shorter than the path by exactly the length of "input/" |
| Names.FileNameRestoresPath | background.js:178 | the file name is the relative path with its first "input/" removed: putting "input/" back at that place restores the path |
| Names.LastPiece | background.js:242 | `split('/').pop()`: the suffix after the last '/', and the whole string when there is no '/' |
| Names.FirstPiece | background.js:243 | `split('-')[0]`: the prefix before the first '-', and the whole string when there is no '-' |
| Names.DownloadBaseName | background.js:242-243 | the base name holds no '/' and no '-', and is no longer than the file name |
| Names.DownloadBaseNameSpec | background.js:242-243 | the download base name has no '/'; it starts right after the last '/' and runs to the next '-' or the end |
| Names.PresentationName | background.js:735-736 | the presentation name holds no '/', '.' or '-', and is no longer than the file name |
| Names.PresentationNameIsPrefix | background.js:735-736 | the presentation name is a prefix of the download base name, equal to it exactly when the base name has no '.', and otherwise cut at the base name's first '.' |
| Names.Extension | background.js:51 | the suffix from the last '.' when there is a dot; the whole file name when there is none, because `lastIndexOf` gives -1 |
| Names.RenamedDownload | background.js:51-52 | the new file name starts with the base name and continues with exactly the original's extension |
| Names.RenamedDownloadKeepsExtension | background.js:51-52 | a renamed download keeps the original extension; without a dot the whole original name is appended to the base name |
| Names.DownloadSuggestion | background.js:46-64 | a rename is suggested exactly when a batch runs, a non-empty base name is set and the referrer starts with "https://gamma.app/docs/"; the name is the base name followed by the extension |
| Polling.CheckStopSignal | background.js:357-368 | the check passes exactly when the round trip resolves with no response or with `shouldStop` false; otherwise it throws the communication-lost error |
| Polling.ScriptVerdict | background.js:830-840 | a failure whose message contains "Automation stopped by user" becomes the `STOPPED_BY_USER` return value; a failure whose message does not contain it becomes a thrown "Automation step failed: " plus the message |
| Polling.StopCheckErrorIsNotUserStop | background.js:360-366 | a stop seen by the stop check reaches the script's catch as the communication-lost error, so it is reported as a failed step, not as a user stop |
| Polling.WaitForGeneration | background.js:460-494 | it takes at least one and at most max(1, floor(g/2)) looks, with g = 120 when the configured value is 0; it rejects only on a failed stop check; it completes exactly when the last look passed the check and saw an idle page; otherwise it times out at the bound; elapsed time is 5 s plus 2 s per further look, plus 3 s after completing |
| Polling.WaitForEnabledButton | background.js:642-655 | at most 10 one-second waits, none when the button is enabled; earlier waits all passed the stop check with the button still disabled; a failed stop check becomes "Could not find 'Generate Card' button."; otherwise the button is clicked, after it was seen enabled or after the tenth wait |
| Insertion.ChunkText | background.js:426-429 | the slices spell the text in order; each holds 1 to 100 characters and only the last may be short; there are ceil(n/100) of them |
| Insertion.RetypeIfMissing | background.js:423-430 | nothing is typed again when the trimmed editor text has at least ten characters; otherwise the slices typed spell the whole text, each of 1 to 100 characters |
| Worker.TryError | background.js:241-286 | the worker's `try` ends without error exactly when the script returned a URL and closing the tab succeeded; a failed tab creation gives its own message; a crashed load gives the crash message; a script that threw gives its message; the stop marker gives "Automation stopped by user"; a run that reaches the close gives the close's error, if any |
| Worker.WorkerOutcome | background.js:240-305 | the worker returns the script's URL exactly in the error-free case; every failure is thrown as "Automation failed for <fileName>: " followed by the error |
| Worker.CloseAttempts | background.js:282-302 | no close is attempted when no tab was created, at least one whenever a tab with a truthy id was created, at most two, and two exactly when the success-path close threw and the catch retried it; for tab id 0 the catch makes no close, so there is one close exactly when the unguarded success-path close is reached |
| Worker.StopsAreReportedAsFailures | background.js:273-276 | a run the script ends with the stop marker, and a run whose stop check fired, are both reported to the loop as failures, each with its own message |
| Batch.Accept | background.js:79-89 | an accepted start runs the batch and clears the stop flag; it installs the given files as the queue, their count as the total, index 0, an empty result map and the given configuration; the status fields and the download base name are untouched; the invariant is kept |
| Batch.RequestStop | background.js:110-119 | while a batch runs, a stop sets `shouldStop` and announces "Stopping...", and every other field, the running flag included, keeps its value; otherwise nothing changes; the invariant is kept |
| Batch.StopIsIdempotent | background.js:110-119 | two stop requests have the effect of one |
| Batch.Publish | background.js:213-217 | the status update writes the three status fields and changes nothing else |
| Batch.StatusOf | background.js:98-107 | the status reply carries the record's running and stop flags, step, details, progress and results |
| Batch.StatusShowsLastPublish | background.js:98-107 | a status query reports the step, details and progress of the last status update, whatever was there before |
| Batch.Percent | background.js:179 | the progress shown while a file is processed lies in [0, 100), and is 0 for the first file |
| Batch.SuccessCount | background.js:168 | the number of URL results is at most the number of results |
| Batch.Begin | background.js:149-186 | a pending stop ends the batch with an empty queue and no new result; an exhausted queue ends it at 100% with the success and failure counts; otherwise the next file is announced as "Processing file K/N" with its name and its percentage, and only the status changes; results and index never change; the invariant is kept |
| Batch.WorkerStart | background.js:242-249 | the worker sets the download base name of the file and announces the tab opening with its own step and details, keeping the progress; queue, index, total, configuration and results are unchanged |
| Batch.Advance | background.js:149-249 | up to the first `await`: the record `Begin` leaves when the batch ends, and for a started file exactly `WorkerStart` of it (base name set, tab opening announced) |
| Batch.WorkerEnd | background.js:257-301 | the status the worker leaves behind: the file-complete notice when it returns, otherwise the failure notice with the error and a cleared base name; queue, index, results, progress and configuration untouched |
| Batch.Record | background.js:195-200 | a success stores the URL; a failure stores "Error: " followed by the message, which never counts as a success |
| Batch.Finish | background.js:195-204 | exactly one entry is written, under the file's name, and other entries keep their values; a repeated name overwrites; the index moves on by one; no other field changes; the invariant is kept |
| Batch.Settle | background.js:189-208 | from the worker's result to the end of the iteration: the worker's last status, then the record; the invariant is kept |
| Batch.StopEndsBatchWithinOneFile | background.js:152-161 | a stop between iterations ends the batch at the next one with no new result; a stop while a file is in flight lets that file get its one result, and the next iteration ends the batch |
| Batch.Recover | background.js:23-36 | a record persisted mid-batch is restored stopped, with no pending stop and an empty queue, and every other field (results, index, total, status, configuration, base name) as persisted; any other persisted record is restored as it is |
| Batch.Download | background.js:46-64 | the listener suggests `DownloadSuggestion`, and a rename clears the base name; otherwise nothing changes |
| Batch.OneRenamePerFile | background.js:56-57 | after one download has been renamed, no later download is renamed until the next file sets a base name |
| Batch.Step | background.js:149-208 | one uninterrupted iteration keeps the invariant |
| Batch.StepRecordsNextFile | background.js:175-208 | an iteration without a stop, while files remain, records the next queued file's name and advances the index by one |
| Batch.RunRecordsEveryFile | background.js:149-208 | after one iteration per file of a batch nobody stops, every file's name is recorded and the index is at the end |
| Batch.BatchRecordsEveryFile | background.js:163-173 | such a batch then completes at 100% with an empty queue; successes and failures are non-negative and add up to the number of files; with distinct names there is one result per file |
| Batch.Driver.constructor | background.js:5-20 | the initial record: nothing running, empty queue, no results |
| Batch.Driver.SendStatusUpdate | background.js:213-217 | the status cache takes the three values and nothing else changes |
| Batch.Driver.Assign | background.js:25 | every field takes the persisted record's value |
| Batch.Driver.Restore | background.js:23-36 | the record in place becomes `Recover` of the old record, and the invariant holds |
| Batch.Driver.Start | background.js:72-95 | refused with "Automation is already running." and nothing changed while running; otherwise the batch is installed and its first iteration runs before the reply |
| Batch.Driver.Stop | background.js:110-120 | the record becomes `RequestStop` of the old one, and the reply is success |
| Batch.Driver.GetStatus | background.js:98-107 | the reply is the status fields of the record, and nothing changes |
| Batch.Driver.BeginNext | background.js:149-194 | a scheduled iteration performs `Advance` in place; the pending continuation is the started file's worker, or nothing when the batch ended |
| Batch.Driver.EndStopped | background.js:152-161 | the stop branch, performed in place, equals `Advance` and leaves no pending continuation |
| Batch.Driver.EndComplete | background.js:163-173 | the completion branch, performed in place, equals `Advance` and leaves no pending continuation |
| Batch.Driver.OpenNextFile | background.js:175-194 | the next-file branch, performed in place, equals `Advance` and leaves the file's worker pending |
| Batch.Driver.RunWorker | background.js:240-305 | the worker performed step by step returns `WorkerOutcome`, leaves the status `WorkerEnd`, and asks `CloseAttempts` times to close its tab |
| Batch.Driver.FinishFile | background.js:194-208 | the awaited worker and the end of the iteration performed in place equal `Settle`, and the next iteration is scheduled |
| Batch.Driver.OnDeterminingFilename | background.js:46-64 | the listener performed in place equals `Download` |

## Left out

- The page automation inside `executeGammaAutomation` (background.js:545-828) is not modelled. That is selectors, clicks, `execCommand`, synthetic events and the visibility test. The script is one input, `ScriptOutcome`, and each look at the page is one observation.
- `waitForElement` and `waitForElementWithText` (background.js:370-403) are left out. They are DOM observers with a timeout.
- `renamePresentation` (background.js:499-537) is left out. It is defined but never called, and takes its name as a parameter.
- The rename dialog of the main script is not modelled. `PresentationName` models the name it types at background.js:735-739.
- Chrome APIs are not modelled as calls: storage persistence, `tabs.create`/`remove`, `onUpdated`, `scripting.executeScript`, `runtime.sendMessage` and log forwarding. Their results are inputs, and saving the state is not modelled.
- Timers are not modelled as real time. Each timer firing is one step. Only the generation wait adds up its delays.
- Interleaving is modelled only at the iteration's `await`. Start, stop, status and download events are atomic. The awaits inside the worker are not interleaving points.
- `waitForTabLoad` (background.js:308-323) never settles if the tab never completes or crashes. The model's run always reaches an outcome.
- `startTime: Date.now()` (background.js:88) is not part of the record. Nothing reads it.
- The configuration's `{}` default, and a falsy `generationWaitTime`, are modelled as 0. A NaN or undefined wait time is not modelled separately.
- Batch.Driver.Restore: requires the driver to be idle. The source runs it once at startup, and a persisted record reaching a running batch later is not modelled. Object spread is modelled as every field taking the persisted value. Keys missing from an older record are not modelled.
- Worker.WorkerOutcome: a script result whose first element is missing does not make the worker throw a `TypeError`. The model takes the script to return a value or to throw.
- Worker.CloseAttempts: whether the retried close throws is only logged, so it is not an input.
- `progress` is a Dafny `real`, not an IEEE double. The percentage at background.js:179 is exact in the model, with no rounding.
- Strings are sequences of characters. JavaScript's UTF-16 code units and surrogate pairs are not modelled. The case-insensitive match of "Slide" compares ASCII letters only, which is exact for a regular expression without the `u` flag.
- Result keys such as `__proto__` are not modelled. On a plain JavaScript object they would not be stored as ordinary entries.
- `popup.js` is not part of this model. It is the user interface, file loading, parsing of the configuration and the results summary.
- `content.js` is not part of this model. It forwards console messages.
