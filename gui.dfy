/**
 * The launcher window's run-control state: the selected input file, the status
 * and elapsed-time labels, the Run and Cancel buttons, the cancel flag and the
 * output text buffer, with the methods that update them in place.
 */
module Gui {
  import opened Wrappers
  import opened Command
  import opened RunModel

  /** How a press of the Run button ends. */
  datatype RunOutcome =
    | Rejected(error: CommandError)                     // the command could not be built; nothing was started
    | SpawnFailed(cmd: seq<string>)                     // starting the child process raised
    | Finished(cmd: seq<string>, status: ExitStatus)    // the child was started and its output loop ended

  /** What the window shows at a cancel checkpoint of a run. */
  datatype Checkpoint = Checkpoint(
    text: string,
    elapsed: Option<nat>,
    cancelPressed: bool,
    statusLabel: string,
    runEnabled: bool,
    cancelEnabled: bool)

  const ShowLabel := "Show Output"
  const HideLabel := "Hide Output"

  class BasicGui {
    var fileArg: Option<string>        // the input file passed to the script
    var statusLabel: string            // text of the status label
    var elapsed: Option<nat>           // seconds shown by the elapsed-time label, if any
    var runEnabled: bool
    var cancelEnabled: bool
    var cancelPressed: bool
    var text: string                   // contents of the output text widget
    var outputShown: bool              // whether the output widget is packed
    var showButtonText: string
    var fileFrameShown: bool           // whether the file-selection row is on the grid
    var script: Option<string>         // the script the Run button runs, once bound

    /** The window as the user sees it at a cancel checkpoint. */
    ghost function Snapshot(): Checkpoint
      reads this
    {
      Checkpoint(text, elapsed, cancelPressed, statusLabel, runEnabled, cancelEnabled)
    }

    /** The toggle button names the action it offers: hiding the output when it is shown, showing it otherwise. */
    ghost predicate Valid()
      reads this`outputShown, this`showButtonText
    {
      showButtonText == (if outputShown then HideLabel else ShowLabel)
    }

    constructor ()
      ensures Valid()
      ensures fileArg == None && statusLabel == StatusText("No file selected.") && elapsed == None
      ensures !runEnabled && cancelEnabled && !cancelPressed && text == ""
      ensures !outputShown && fileFrameShown && script == None
    {
      fileArg := None;
      statusLabel := StatusText("No file selected.");
      elapsed := None;
      runEnabled := false;
      cancelEnabled := true;
      cancelPressed := false;
      text := "";
      outputShown := false;
      showButtonText := ShowLabel;
      fileFrameShown := true;
      script := None;
    }

    method ShowText()
      requires Valid()
      modifies this`outputShown, this`showButtonText
      ensures Valid() && outputShown
    {
      showButtonText := HideLabel;
      outputShown := true;
    }

    method HideText()
      requires Valid()
      modifies this`outputShown, this`showButtonText
      ensures Valid() && !outputShown
    {
      showButtonText := ShowLabel;
      outputShown := false;
    }

    /** The confirmation dialog's answer is `response`; only a confirmation sets the flag. */
    method AskCancel(response: bool)
      modifies this`cancelPressed
      ensures cancelPressed == (old(cancelPressed) || response)
    {
      if response {
        cancelPressed := true;
      }
    }

    method UpdateStatus(status: Option<string>, timeElapsed: Option<nat>)
      modifies this`statusLabel, this`elapsed
      ensures statusLabel == if status.Some? then StatusText(status.value) else old(statusLabel)
      ensures elapsed == if timeElapsed.Some? then timeElapsed else old(elapsed)
    {
      if status.Some? {
        statusLabel := StatusText(status.value);
      }
      if timeElapsed.Some? {
        elapsed := timeElapsed;
      }
    }

    /** `filename` is what the file dialog returned; the empty string means the user cancelled it. */
    method GetFileToRun(filename: string)
      modifies this`fileArg, this`runEnabled, this`statusLabel, this`elapsed
      ensures elapsed == old(elapsed)
      ensures filename == "" ==> fileArg == old(fileArg) && runEnabled == old(runEnabled) && statusLabel == old(statusLabel)
      ensures filename != "" ==> fileArg == Some(filename) && runEnabled && statusLabel == StatusText("Ready")
    {
      if filename == "" {
        return;
      }
      fileArg := Some(filename);
      runEnabled := true;
      UpdateStatus(Some("Ready"), None);
    }

    /** Appends `s` to the buffer one character at a time. */
    method Write(s: string)
      modifies this`text
      ensures text == old(text) + s
    {
      var i := 0;
      while i < |s|
        invariant 0 <= i <= |s|
        invariant text == old(text) + s[..i]
      {
        text := text + [s[i]];
        assert s[..i + 1] == s[..i] + [s[i]];
        i := i + 1;
      }
      assert s[..i] == s;
    }

    method WriteLine(line: string)
      modifies this`text
      ensures text == old(text) + line
    {
      text := text + line;
    }

    /**
     * Prepares a run of `filename`. `fileExists` says whether the file is present. A script
     * that takes no input file is ready at once and the file-selection row is hidden.
     */
    method RunScript(filename: string, fileExists: bool, requiresInput: bool) returns (found: bool)
      modifies this`script, this`statusLabel, this`elapsed, this`runEnabled, this`fileFrameShown
      ensures found == fileExists && elapsed == old(elapsed)
      ensures !fileExists ==>
        script == old(script) && statusLabel == old(statusLabel) &&
        runEnabled == old(runEnabled) && fileFrameShown == old(fileFrameShown)
      ensures fileExists ==> script == Some(filename)
      ensures fileExists && requiresInput ==>
        statusLabel == old(statusLabel) && runEnabled == old(runEnabled) && fileFrameShown == old(fileFrameShown)
      ensures fileExists && !requiresInput ==>
        statusLabel == StatusText("Ready") && runEnabled && !fileFrameShown
    {
      if !fileExists {
        return false;
      }
      if !requiresInput {
        UpdateStatus(Some("Ready"), None);
        runEnabled := true;
        fileFrameShown := false;
      }
      script := Some(filename);
      found := true;
    }

    /**
     * One pass of the output loop up to its checkpoint: the line is written, the time
     * `t` shown, and any cancel dialog answered `response` before the checkpoint.
     */
    method LoopStep(line: string, t: nat, response: bool)
      modifies this`text, this`elapsed, this`cancelPressed, this`statusLabel
      ensures text == old(text) + line && elapsed == Some(t) && statusLabel == old(statusLabel)
      ensures cancelPressed == (old(cancelPressed) || response)
    {
      WriteLine(line);
      UpdateStatus(None, Some(t));
      AskCancel(response);
    }

    /**
     * The output loop of a run: each line read is written and the elapsed time
     * `clock[i]` shown, then the cancel flag is examined. `responses[i]` is the answer
     * of any cancel dialog confirmed before that checkpoint. The returned status is the
     * one the loop leaves, before `poll()` is consulted; `n` is the number of lines read;
     * `terminated` records whether the child was asked to terminate; `checkpoints` holds
     * what the window shows at each checkpoint.
     */
    method StreamOutput(lines: seq<string>, responses: seq<bool>, clock: seq<nat>)
      returns (status: ExitStatus, n: nat, ghost terminated: bool, ghost checkpoints: seq<Checkpoint>)
      requires !cancelPressed && text == ""
      requires |responses| == |lines| && |clock| == |lines| + 1
      modifies this`text, this`elapsed, this`cancelPressed, this`statusLabel
      ensures n <= |lines| && |checkpoints| == n
      ensures statusLabel == old(statusLabel)
      ensures cancelPressed ==> 0 < n && responses[n - 1]
      ensures !cancelPressed ==> n == |lines|
      ensures forall j :: 0 <= j < n - 1 ==> !responses[j]
      ensures !cancelPressed ==> forall j :: 0 <= j < n ==> !responses[j]
      ensures terminated == cancelPressed
      ensures status == if cancelPressed then Halted else Done
      ensures text == Concat(lines[..n]) + (if cancelPressed then Notice else "")
      ensures elapsed == if n == 0 then old(elapsed) else Some(clock[n - 1])
      ensures forall j {:trigger checkpoints[j]} :: 0 <= j < n ==>
        checkpoints[j] == Checkpoint(Concat(lines[..j + 1]), Some(clock[j]), responses[j],
                                     statusLabel, runEnabled, cancelEnabled)
    {
      status, n, terminated, checkpoints := Done, 0, false, [];
      while n < |lines|
        invariant 0 <= n <= |lines| && |checkpoints| == n
        invariant forall j :: 0 <= j < n ==> !responses[j]
        invariant forall j {:trigger checkpoints[j]} :: 0 <= j < n ==>
          checkpoints[j] == Checkpoint(Concat(lines[..j + 1]), Some(clock[j]), responses[j],
                                       statusLabel, runEnabled, cancelEnabled)
        invariant status == Done && !cancelPressed && !terminated
        invariant statusLabel == old(statusLabel)
        invariant elapsed == if n == 0 then old(elapsed) else Some(clock[n - 1])
        invariant text == Concat(lines[..n])
      {
        LoopStep(lines[n], clock[n], responses[n]);
        n := n + 1;
        ConcatSnoc(lines, n);
        checkpoints := checkpoints + [Snapshot()];
        if cancelPressed {
          terminated := true;
          WriteLine(Notice);
          status := Halted;
          break;
        }
      }
    }

    /**
     * The part of a run after the child has started: the button states, the output
     * loop, the exit-code check and the final status update. `lateResponse` is the
     * answer of a cancel dialog confirmed after the last checkpoint: it sets the flag,
     * but no checkpoint sees it, so nothing is terminated.
     */
    method Supervise(lines: seq<string>, responses: seq<bool>, clock: seq<nat>,
                     lateResponse: bool, poll: Option<int>)
      returns (status: ExitStatus, ghost terminated: bool, ghost checkpoints: seq<Checkpoint>)
      requires !cancelPressed && text == ""
      requires |responses| == |lines| && |clock| == |lines| + 1
      modifies this`cancelPressed, this`statusLabel, this`elapsed, this`text,
               this`runEnabled, this`cancelEnabled
      ensures status == FinalStatus(FirstCancel(responses).Some?, poll)
      ensures terminated == FirstCancel(responses).Some?
      ensures cancelPressed == (FirstCancel(responses).Some? || lateResponse)
      ensures statusLabel == StatusText(LabelText(status))
      ensures elapsed == Some(clock[Consumed(responses)])
      ensures text == Concat(RunChunks(lines, responses))
      ensures runEnabled && cancelEnabled
      ensures |checkpoints| == Consumed(responses)
      ensures forall j {:trigger checkpoints[j]} :: 0 <= j < |checkpoints| ==>
        checkpoints[j] == Checkpoint(Concat(lines[..j + 1]), Some(clock[j]), responses[j],
                                     old(statusLabel), false, true)
    {
      runEnabled := false;
      cancelEnabled := true;
      var n;
      status, n, terminated, checkpoints := StreamOutput(lines, responses, clock);
      StopPoint(lines, responses, n, cancelPressed);
      AskCancel(lateResponse);
      if PollTruthy(poll) {
        status := Error(poll.value);
      }
      UpdateStatus(Some(LabelText(status)), Some(clock[n]));
      runEnabled := true;
    }

    /**
     * One press of the Run button. The child prints `lines`; `responses`, `clock` and
     * the checkpoints are as for StreamOutput, and `clock` holds one more reading, the
     * final one, after the last line consumed; `spawnOk` says whether the child could
     * be started; `lateResponse` is as for Supervise; `poll` is what `poll()` reports
     * once the output loop has ended.
     * `terminated` records whether the child was asked to terminate.
     */
    method RunOnce(lines: seq<string>, responses: seq<bool>, clock: seq<nat>,
                   spawnOk: bool, lateResponse: bool, poll: Option<int>)
      returns (outcome: RunOutcome, ghost terminated: bool, ghost checkpoints: seq<Checkpoint>)
      requires script.Some?
      requires |responses| == |lines| && |clock| == |lines| + 1
      modifies this`cancelPressed, this`statusLabel, this`elapsed, this`text,
               this`runEnabled, this`cancelEnabled
      ensures outcome == Outcome(BuildScriptCommand(script.value, fileArg), spawnOk, FirstCancel(responses), poll)
      ensures outcome.Rejected? ==>
        !cancelPressed && statusLabel == old(statusLabel) && elapsed == old(elapsed) &&
        text == old(text) && runEnabled == old(runEnabled) && cancelEnabled == old(cancelEnabled)
      ensures outcome.SpawnFailed? ==>
        !cancelPressed && statusLabel == StatusText("Running") && elapsed == Some(0) &&
        text == "" && runEnabled == old(runEnabled) && cancelEnabled == old(cancelEnabled)
      ensures outcome.Finished? ==>
        cancelPressed == (FirstCancel(responses).Some? || lateResponse) &&
        statusLabel == StatusText(LabelText(outcome.status)) &&
        elapsed == Some(clock[Consumed(responses)]) &&
        text == Concat(RunChunks(lines, responses)) &&
        runEnabled && cancelEnabled
      ensures terminated <==> outcome.Finished? && FirstCancel(responses).Some?
      ensures |checkpoints| == if outcome.Finished? then Consumed(responses) else 0
      ensures forall j {:trigger checkpoints[j]} :: 0 <= j < |checkpoints| ==>
        checkpoints[j] == Checkpoint(Concat(lines[..j + 1]), Some(clock[j]), responses[j],
                                     StatusText("Running"), false, true)
    {
      terminated, checkpoints := false, [];
      cancelPressed := false;
      var built := BuildScriptCommand(script.value, fileArg);
      if built.Failure? {
        outcome := Rejected(built.error);
        return;
      }
      UpdateStatus(Some("Running"), Some(0));
      text := "";
      if !spawnOk {
        outcome := SpawnFailed(built.value);
        return;
      }
      var status;
      status, terminated, checkpoints := Supervise(lines, responses, clock, lateResponse, poll);
      outcome := Finished(built.value, status);
    }
  }

  /** How a run ends, from the command built, whether it started, the first cancelled checkpoint and `poll()`. */
  function Outcome(built: Result<seq<string>, CommandError>, spawnOk: bool,
                   cancelAt: Option<nat>, poll: Option<int>): (r: RunOutcome)
    ensures r.Rejected? <==> built.Failure?
    ensures r.Rejected? ==> r.error == built.error
    ensures r.SpawnFailed? <==> built.Success? && !spawnOk
    ensures r.SpawnFailed? ==> r.cmd == built.value
    ensures r.Finished? ==> r.cmd == built.value && r.status == FinalStatus(cancelAt.Some?, poll)
  {
    match built
    case Failure(e) => Rejected(e)
    case Success(cmd) =>
      if spawnOk then Finished(cmd, FinalStatus(cancelAt.Some?, poll)) else SpawnFailed(cmd)
  }

  /**
   * The times a finished run shows never go back, provided the clock does not: every
   * checkpoint's time is at most the time shown at the end. The hypotheses are what
   * RunOnce ensures of a finished run.
   */
  lemma CheckpointsNotAfterEnd(checkpoints: seq<Checkpoint>, responses: seq<bool>,
                               clock: seq<nat>, finalElapsed: Option<nat>)
    requires NonDecreasing(clock) && |clock| == |responses| + 1
    requires |checkpoints| == Consumed(responses)
    requires forall j {:trigger checkpoints[j]} :: 0 <= j < |checkpoints| ==>
      checkpoints[j].elapsed == Some(clock[j])
    requires finalElapsed == Some(clock[Consumed(responses)])
    ensures forall j :: 0 <= j < |checkpoints| ==>
      checkpoints[j].elapsed.Some? && checkpoints[j].elapsed.value <= finalElapsed.value
  {
    CheckpointTimesBeforeEnd(clock, Consumed(responses));
  }
}
