/**
 * The cancellation check and the bounded waits of the injected automation script:
 * `checkStopSignal` (background.js:357-368), the catch that classifies a failed run
 * (background.js:830-840), `waitForGeneration` (background.js:460-494) and the wait for a
 * disabled "Generate Card" button (background.js:639-655). Each external observation (a
 * status reply, a look at the page) is an input, one per poll.
 */
module Polling {

  import opened Wrappers
  import opened Text

  /** How the `getAutomationStatus` round trip ends: it fails, it resolves without a response, or it carries the stop flag. */
  datatype StopReply = RoundTripFailed | NoResponse | Reply(shouldStop: bool)

  const StopError: string := "Automation stopped (communication lost)"
  const UserStopError: string := "Automation stopped by user"

  /**
   * `checkStopSignal`: `None` when it returns, `Some(message)` when it throws. The throw for a
   * stop request happens inside the same `try` whose `catch` rethrows every error as the
   * communication-lost error, so a stop and a failed round trip are indistinguishable.
   */
  function CheckStopSignal(reply: StopReply): (err: Option<string>)
    ensures err.None? <==> reply == NoResponse || reply == Reply(false)
    ensures err.Some? ==> err.value == StopError
  {
    var thrown := reply.RoundTripFailed? || (reply.Reply? && reply.shouldStop);
    if thrown then Some(StopError) else None
  }

  /** What the injected script hands back to `executeScript`: a value, or an error it throws. */
  datatype ScriptOutcome = ScriptReturned(value: string) | ScriptThrew(message: string)

  const StoppedMarker: string := "STOPPED_BY_USER"
  const StepFailedPrefix: string := "Automation step failed: "

  /** The outer `catch` of the script: an error mentioning a user stop becomes the marker value, any other is rethrown with a prefix. */
  function ScriptVerdict(message: string): (r: ScriptOutcome)
    ensures r == ScriptReturned(StoppedMarker) <==> Contains(message, UserStopError)
    ensures r.ScriptThrew? ==> r.message == StepFailedPrefix + message
    ensures !Contains(message, UserStopError) ==> r == ScriptThrew(StepFailedPrefix + message)
  {
    if Contains(message, UserStopError) then ScriptReturned(StoppedMarker)
    else ScriptThrew(StepFailedPrefix + message)
  }

  /**
   * A stop seen by `checkStopSignal` never yields the marker: the error it throws does not
   * mention a user stop, so the script fails with a prefixed message instead.
   */
  lemma StopCheckErrorIsNotUserStop()
    ensures ScriptVerdict(StopError) == ScriptThrew(StepFailedPrefix + StopError)
  {
    assert UserStopError[19] == 'b';
    assert forall k :: 0 <= k < |StopError| ==> StopError[k] != 'b';
    forall i: nat ensures !OccursAt(StopError, UserStopError, i) {
      if i + |UserStopError| <= |StopError| {
        assert StopError[i..i + |UserStopError|][19] == StopError[i + 19];
      }
    }
    assert !OccursAt(StopError, UserStopError, 0);
  }

  /** One look at the page during a generation wait: the stop check's reply, then whether a spinner or a "generating" text is visible. */
  datatype GenerationCheck = GenerationCheck(reply: StopReply, busy: bool)

  datatype WaitResult = Completed | TimedOut | Rejected(message: string)

  /** `generationWaitTime`, with 120 seconds when the configured value is falsy (0 stands for absent). */
  function GenerationBudget(configured: int): int {
    if configured != 0 then configured else 120
  }

  /** `Math.floor(budget / 2)`; Dafny's division by a positive divisor is floor division, also for a negative budget. */
  function MaxChecks(configured: int): int {
    GenerationBudget(configured) / 2
  }

  function Max(a: int, b: int): int {
    if a < b then b else a
  }

  /**
   * `waitForGeneration`: a first look after 5 s, then one every 2 s. It rejects only when a stop
   * check fails, resolves once the page is idle (after a 3 s settle), and resolves anyway once
   * `checkCount` reaches `maxChecks`. `polls` is the number of looks taken, `elapsedMs` the sum of
   * the timer delays.
   */
  method WaitForGeneration(configured: int, checks: nat -> GenerationCheck)
    returns (result: WaitResult, polls: nat, elapsedMs: nat)
    ensures 1 <= polls <= Max(1, MaxChecks(configured))
    ensures forall i :: 0 <= i < polls - 1 ==> CheckStopSignal(checks(i).reply).None? && checks(i).busy
    ensures result.Rejected? <==> CheckStopSignal(checks(polls - 1).reply).Some?
    ensures result.Rejected? ==> result.message == StopError
    ensures result.Completed? <==> CheckStopSignal(checks(polls - 1).reply).None? && !checks(polls - 1).busy
    ensures result.TimedOut? ==> polls == Max(1, MaxChecks(configured))
    ensures elapsedMs == 5000 + 2000 * (polls - 1) + (if result.Completed? then 3000 else 0)
    ensures result.TimedOut? ==> elapsedMs >= 1000 * GenerationBudget(configured)
  {
    var checkCount := 0;
    var maxChecks := MaxChecks(configured);
    polls, elapsedMs := 0, 5000;
    while true
      invariant polls == checkCount < Max(1, maxChecks)
      invariant forall i :: 0 <= i < polls ==> CheckStopSignal(checks(i).reply).None? && checks(i).busy
      invariant elapsedMs == 5000 + 2000 * polls
      decreases Max(1, maxChecks) - polls
    {
      var look := checks(polls);
      polls := polls + 1;
      var err := CheckStopSignal(look.reply);
      if err.Some? {
        result := Rejected(err.value);
        return;
      }
      checkCount := checkCount + 1;
      if !look.busy {
        result := Completed;
        elapsedMs := elapsedMs + 3000;
        return;
      }
      if checkCount >= maxChecks {
        result := TimedOut;
        return;
      }
      elapsedMs := elapsedMs + 2000;
    }
  }

  /** One second of the button wait: the stop check's reply, then whether the button is still disabled. */
  datatype ButtonTick = ButtonTick(reply: StopReply, stillDisabled: bool)

  datatype ButtonResult = Clicked | ButtonStepFailed(message: string)

  const GenerateCardError: string := "Could not find 'Generate Card' button."

  /**
   * The wait for the "Generate Card" button: while it is disabled, at most ten one-second polls,
   * each followed by a stop check; then a click whether or not it became enabled. A failed stop
   * check is caught by the step's own `catch`, which reports the button as missing.
   */
  method WaitForEnabledButton(initiallyDisabled: bool, ticks: nat -> ButtonTick)
    returns (result: ButtonResult, waitCount: nat)
    ensures waitCount <= 10
    ensures !initiallyDisabled ==> waitCount == 0 && result == Clicked
    ensures forall i :: 0 <= i < waitCount - 1 ==> CheckStopSignal(ticks(i).reply).None? && ticks(i).stillDisabled
    ensures result.ButtonStepFailed? <==> waitCount >= 1 && CheckStopSignal(ticks(waitCount - 1).reply).Some?
    ensures result.ButtonStepFailed? ==> result.message == GenerateCardError
    ensures result == Clicked && initiallyDisabled ==> waitCount >= 1
    ensures result == Clicked && 1 <= waitCount < 10 ==> !ticks(waitCount - 1).stillDisabled
  {
    waitCount := 0;
    result := Clicked;
    if initiallyDisabled {
      var disabled := true;
      while disabled && waitCount < 10
        invariant waitCount <= 10
        invariant disabled ==> forall i :: 0 <= i < waitCount ==> ticks(i).stillDisabled
        invariant !disabled ==> waitCount >= 1 && !ticks(waitCount - 1).stillDisabled
        invariant forall i :: 0 <= i < waitCount - 1 ==> ticks(i).stillDisabled
        invariant forall i :: 0 <= i < waitCount ==> CheckStopSignal(ticks(i).reply).None?
        invariant disabled || waitCount >= 1
      {
        var tick := ticks(waitCount);
        waitCount := waitCount + 1;
        if CheckStopSignal(tick.reply).Some? {
          result := ButtonStepFailed(GenerateCardError);
          return;
        }
        disabled := tick.stillDisabled;
      }
    }
  }
}
