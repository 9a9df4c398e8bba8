# FORCE launcher: run control of `BasicGUI`

FORCE ships a small tkinter window, `BasicGUI` in `package/gui.py`, that launches one
script. The user picks an input XML file and presses Run. The window then builds a command
line from the script's file suffix, starts the script as a child process, streams the
child's output into a text widget, and shows a status label and an elapsed-time label.
Cancel asks the user to confirm. The output loop examines the confirmed request after each
line it writes: it terminates the child, writes a notice and reports `Halted`. A non-zero
exit code reported by `poll()` afterwards overrides the label with `Error (c)`.

This project models that run control in Dafny:

- `wrappers.dfy`: `Option` and `Result`.
- `decimal.dfy`: Python's `str(int)` for the exit code in `Error (c)`. It comes with a
  parser and proofs that the conversion round-trips and is injective.
- `command.dfy`: `_build_script_command`, a pure function from filename and optional
  input file to an argument vector or an error.
- `run_model.dfy`: reference functions for one run:
  - `FirstCancel` finds the first checkpoint at which a cancel is confirmed.
  - `RunChunks` gives the chunks written to the buffer.
  - `FinalStatus` gives the resulting status, including the `poll()` override.
  - Lemmas describe the shape of these results.
- `gui.dfy`: class `BasicGui`. Its fields are the launcher's run-control state: input
  file, status label, elapsed time, the two button states, the cancel flag, the text
  buffer, output visibility and the bound script. Its methods update these fields in place.
  Each method's postcondition ties the new state to the reference functions.

Everything the launcher gets from outside is a parameter:
- The user's choice in the file dialog is `filename`, where `""` means the dialog was cancelled.
- The confirmation dialog's answers, one observation per output line, are `responses`.
- A confirmation that comes after the last checkpoint of a run is `lateResponse`.
- The child's output lines are `lines`.
- Whether `Popen` succeeded is `spawnOk`.
- What `poll()` returns is `poll`.
- The clock readings, in whole seconds, are `clock`.
- Whether the script file exists is `fileExists`.

`_run_script` is a single Python function. The model splits it into four methods:
- `RunOnce` covers the part before the child starts.
- `Supervise` covers everything after the child has started.
- `StreamOutput` is the `for line in p.stdout` loop.
- `LoopStep` is one pass of that loop's body up to the cancel check: it writes the line,
  shows the time and applies that checkpoint's dialog answer.

`RunOnce`'s postcondition gives the state after the whole run for each of the three ways
it can end:
- the command is rejected;
- the child fails to start;
- the child runs and its output loop finishes.

The ghost `checkpoints` output records what the window shows at each point where the
cancel flag is examined.

## Model

| member | source | states |
|---|---|---|
| Command.BuildScriptCommandSpec | package/gui.py:196-206 | The build fails exactly when the name ends in none of `.py`, `.pyc`, `.exe`, `.sh`, with an error naming the file. Otherwise the command starts `python -u f`, `f` or `bash f` according to the suffix. Its length is that prefix's length plus one exactly when an input file is set. That input file is then the last element. |
| Command.BuildScriptCommand | package/gui.py:190-206 | Specified by `Command.BuildScriptCommandSpec`: the command for each recognised suffix, the optional input file appended, and the error for any other suffix. |
| Command.ErrorMessage | package/gui.py:203 | The message of the error starts with `File ` followed by the offending file name. |
| Command.SuffixesDisjoint | package/gui.py:196-203 | No filename is a Python script and also an `.exe` or `.sh` file, and none is both `.exe` and `.sh`, so the order of the suffix tests never matters. |
| Decimal.NatToString | package/gui.py:273 | The decimal text of a natural number is non-empty, all digits, and without a leading zero unless it is `0`. |
| Decimal.IntToString | package/gui.py:273 | The decimal text of an integer is non-empty and starts with `-` exactly when the number is negative. |
| Decimal.NatToStringRoundTrip | package/gui.py:273 | Reading back the digits of a natural number's decimal text gives the number. |
| Decimal.IntToStringRoundTrip | package/gui.py:273 | The decimal text of any integer is well formed, and parsing it gives back the integer. |
| Decimal.IntToStringInjective | package/gui.py:273 | Different exit codes produce different texts. |
| RunModel.LabelTextInjective | package/gui.py:270-275 | The labels `Done`, `Halted` and `Error (c)` are pairwise different, and different codes give different labels, so the final status label identifies how the run ended. |
| RunModel.LabelText | package/gui.py:270-273 | Specified by `RunModel.LabelTextInjective` and `RunModel.StatusLabelIdentifies`: the texts `Done`, `Halted` and `Error (c)`, distinct for distinct statuses and codes. |
| RunModel.StatusLabelIdentifies | package/gui.py:270-275 | Two runs that end with the same status-label text ended with the same status. |
| RunModel.PollTruthy | package/gui.py:272 | Used by `RunModel.FinalStatus`, whose contract says a status becomes `Error (c)` exactly when `poll()` gives `Some(c)` with `c != 0`. `None` and `0` are false, as in Python. |
| RunModel.FinalStatus | package/gui.py:253-273 | The final status is `Error(c)` exactly when `poll()` gives a non-zero `c`, whether or not the run was cancelled. It is `Halted` exactly when the run was cancelled and `poll()` is `None` or `0`. It is `Done` exactly when there was no cancel and `poll()` is `None` or `0`. |
| RunModel.FirstCancel | package/gui.py:263-271 | When some checkpoint sees a confirmed cancel, the result is the index of the first one. It is `None` exactly when no checkpoint sees one. |
| RunModel.Consumed | package/gui.py:263-271 | The loop reads at most all the lines. |
| RunModel.ConcatAppend | package/gui.py:165-187 | Writing two sequences of chunks one after the other puts their concatenation in the buffer. |
| RunModel.ConcatSnoc | package/gui.py:263-264 | After `n` lines the buffer is the first `n-1` lines followed by line `n`. |
| RunModel.RunChunks | package/gui.py:247-271 | Specified by `RunModel.RunChunksShape`: the lines up to and including the first cancelled checkpoint, then one notice; all lines when there is no cancel. |
| RunModel.RunChunksShape | package/gui.py:247-271 | With no confirmed cancel, the chunks written are all the lines in order. With the first cancel at checkpoint `k`, they are lines `0..k` followed by exactly one notice, and no later line. |
| RunModel.RunTextShape | package/gui.py:247-271 | The buffer after a run is the concatenation of the lines read. When the run was cancelled, it is followed by the notice `Subprocess terminated.\n`. |
| RunModel.StopPoint | package/gui.py:263-271 | When the loop stops after `n` lines, `n` is exactly the number the reference functions predict, and the buffer the loop built equals the reference buffer. The loop stops either at the first checkpoint that saw a cancel or at the end of the output. |
| RunModel.ElapsedNeverDecreases | package/gui.py:246-275 | When each clock reading is at most the next one, any earlier reading is at most any later one. |
| RunModel.CheckpointTimesBeforeEnd | package/gui.py:263-275 | When the clock does not go back, the time shown at each checkpoint, reading `j` at checkpoint `j`, is at most the time shown at the end of the run. |
| Gui.BasicGui.constructor | package/gui.py:40-105 | The window starts with no input file, the label `Status: No file selected.`, no elapsed time, Run disabled, Cancel enabled, the flag clear, an empty buffer, hidden output and a visible file row. |
| Gui.BasicGui.ShowText | package/gui.py:107-115 | Shows the output, and the toggle then offers `Hide Output`. |
| Gui.BasicGui.HideText | package/gui.py:117-125 | Hides the output, and the toggle then offers `Show Output`. |
| Gui.BasicGui.AskCancel | package/gui.py:127-135 | Only a confirmation sets the flag. The flag is never cleared, so asking again changes nothing once it is set. |
| Gui.BasicGui.GetFileToRun | package/gui.py:137-150 | A cancelled dialog changes nothing. Otherwise the file becomes the input file, Run is enabled and the label reads `Status: Ready`. |
| Gui.BasicGui.UpdateStatus | package/gui.py:152-163 | The label becomes `Status: ` + status only when a status is given. The time changes only when a time is given. |
| Gui.BasicGui.Write | package/gui.py:165-176 | The character-by-character loop leaves the buffer equal to the old buffer followed by the text. |
| Gui.BasicGui.WriteLine | package/gui.py:178-187 | The buffer becomes the old buffer followed by the line. |
| Gui.BasicGui.RunScript | package/gui.py:208-279 | A missing file is reported and changes nothing. Otherwise the script is bound to Run. A script that needs no input file is also made ready at once: the label reads `Status: Ready`, Run is enabled and the file row is hidden. |
| Gui.BasicGui.LoopStep | package/gui.py:263-267 | One pass of the loop up to its checkpoint. The line is appended to the buffer, the time shown becomes the reading, the status label is unchanged, and the flag is set exactly when it was set or the dialog was confirmed. |
| Gui.BasicGui.StreamOutput | package/gui.py:263-271 | The loop stops at the first line after which a cancel is seen, or at the end of the output. The buffer holds exactly the lines read, plus the notice when cancelled. The time shown is the last reading, updated with a time only, so the status label is unchanged. The loop's status is `Halted` or `Done`. Each checkpoint comes right after its line is written and timed. |
| Gui.BasicGui.Supervise | package/gui.py:253-276 | Run is disabled and Cancel enabled while the child runs. Afterwards the buffer is the reference buffer, the label is `Status: ` plus the final-status label, the time is the reading after the last line consumed, Run is enabled again. Termination was requested exactly when some checkpoint saw a confirmed cancel. The flag is set exactly then or when a confirmation came after the last checkpoint; such a late confirmation terminates nothing and leaves the label `Done` or `Error (c)`. |
| Gui.BasicGui.RunOnce | package/gui.py:229-276 | The flag is reset first. A rejected command, which is built before anything else changes, leaves label, time, buffer and buttons unchanged. A failed start leaves `Status: Running`, time 0 and an empty buffer. A finished run has the buffer, label, time and buttons given by the reference functions, and its flag is set exactly when a checkpoint or a late confirmation set it. The result is the outcome those functions predict, and every checkpoint shows `Status: Running`, with Run disabled and Cancel enabled. |
| Gui.CheckpointsNotAfterEnd | package/gui.py:263-275 | Of a finished run, as `Gui.BasicGui.RunOnce` describes it: when the clock does not go back, every checkpoint shows a time, and that time is at most the time shown at the end. |
| Gui.Outcome | package/gui.py:242-273 | The run is rejected, with the build's error, exactly when the command cannot be built, and fails to start, carrying the built command, exactly when it can be built but the child cannot be started. A finished run carries the built command and the status `RunModel.FinalStatus` of the first cancel and `poll()`. `Gui.BasicGui.RunOnce` ends with this outcome. |

## Left out

- Widgets, window geometry, the grid layout, the scrollbar, the `Ctrl+C` binding, the main
  loop and the test block (package/gui.py:40-105, 280-289) are not modelled. Only the state they display
  is kept.
- Thread handling (`threadify`, package/gui.py:20-35, 228) is not modelled. A run is
  one sequential, uninterrupted method call. A press of Cancel during the run is modelled
  as the dialog answers observed at each checkpoint (`responses`), plus one answer after
  the last checkpoint (`lateResponse`). No other event can happen while a run is in
  progress.
- Gui.BasicGui.RunOnce: choosing a file while a run is in progress is not modelled. The
  Select File button is never disabled, so in the source this runs package/gui.py:147-150
  during the run: Run is enabled again and `Status: Ready` is shown while the child still
  runs, and a second press of Run can then start another run, which resets the flag
  (package/gui.py:235). The model cannot express this.
- Subprocess handling is left out: `Popen`, pipes, line buffering, `p.terminate()` and the
  closing of the `with` block. Closing it waits for the child to exit. A child that survives
  `terminate()`, or keeps running after closing its output, blocks package/gui.py:275-276
  forever: the label stays `Status: Running` and Run stays disabled. The model always
  reaches the final update. What the model keeps:
  - the output is a finite sequence of lines;
  - start-up failure is `spawnOk`;
  - termination is the ghost `terminated` flag.
- Gui.BasicGui.RunOnce: `poll()` is modelled as one value. The source calls it twice
  (package/gui.py:272-273), and the model assumes both calls report the same code, as the
  cached return code of a finished process does.
- Gui.BasicGui.RunOnce: a `Popen` that raises is the outcome `SpawnFailed`, with the state
  the source leaves at that point: `Status: Running`, time 0, an empty buffer, Run as it
  was. The exception itself, which ends the run's thread, is not modelled.
- Gui.BasicGui.Supervise: a failure while reading the child's output is not modelled, for
  example a decoding error raised by `for line in p.stdout` in text mode
  (package/gui.py:254-263). In the source such an exception skips package/gui.py:272-276:
  the label stays `Status: Running`, Run stays disabled, and the buffer keeps the output
  written so far. The model has no such path: every started run ends with a final label
  and Run enabled.
- Time formatting is left out: `time.time()`, `round` and the `datetime.timedelta` text of
  the elapsed-time label (package/gui.py:162-163, 246, 265, 275). The elapsed time is a
  whole number of seconds taken from `clock`, so it cannot be negative. In the source a wall
  clock set back before the run started gives a negative `timedelta`, which the label shows.
- Gui.BasicGui.RunOnce: the `clock` readings are non-negative but otherwise
  unconstrained, because the source reads a wall clock (`time.time()`), which can go back.
  The shown times therefore need not increase during a run. `Gui.CheckpointsNotAfterEnd`
  states what holds when the readings do not go back.
- `os.path.exists` and `os.path.relpath` (package/gui.py:148, 215) are filesystem
  calls. File existence is the `fileExists` input, and the relative-path label of the chosen
  file is not kept.
- Gui.BasicGui.RunScript: the `FileNotFoundError` raised for a missing file is modelled as
  the result `false` with no state change.
- The text widget's `NORMAL`/`DISABLED` toggling around each insert is not modelled. It
  does not change the buffer's contents.
- The error message text of `_build_script_command`'s `ValueError` is given as
  `Command.ErrorMessage`. The model carries the error as `UnrecognizedExtension(filename)`.
- package/raven_framework.py and package/setup.py are not part of this model. They hold
  launch plumbing around an external driver and a packaging configuration.
- Behaviour of the launcher worth noting:
  - The confirmation dialog can set the cancel flag at any time, not only while a script
    runs. The next run resets the flag first. The model keeps this: `AskCancel` has no
    precondition.
  - The Cancel button is never disabled. The model keeps this: `cancelEnabled` stays true.
  - Nothing in the source prevents a second run while one is in progress. The Run button
    is disabled, but choosing a file enables it again, as described above.
