/**
 * What one run of a script produces, as functions of the run's inputs: the lines the
 * child prints, the cancel-dialog responses that reach each checkpoint, and the
 * exit code `poll()` reports when the output loop ends.
 */
module RunModel {
  import opened Wrappers
  import Decimal

  /** The notice written when a cancellation is honoured. */
  const Notice := "Subprocess terminated.\n"

  const StatusPrefix := "Status: "

  /** The exit status shown at the end of a run. */
  datatype ExitStatus = Done | Halted | Error(code: int)

  /** `'Done'`, `'Halted'` or `f'Error ({code})'`. */
  function LabelText(s: ExitStatus): string {
    match s
    case Done => "Done"
    case Halted => "Halted"
    case Error(c) => "Error (" + Decimal.IntToString(c) + ")"
  }

  /** The text of the status label after `_update_status(status=status)`. */
  function StatusText(status: string): string { StatusPrefix + status }

  /** Distinct exit statuses give distinct labels, so the label tells the exit code. */
  lemma LabelTextInjective(a: ExitStatus, b: ExitStatus)
    requires LabelText(a) == LabelText(b)
    ensures a == b
  {
    if a.Error? && b.Error? {
      var ta, tb := LabelText(a), LabelText(b);
      assert ta[7..|ta| - 1] == Decimal.IntToString(a.code);
      assert tb[7..|tb| - 1] == Decimal.IntToString(b.code);
      Decimal.IntToStringInjective(a.code, b.code);
    }
  }

  /** The final status label names the exit status: distinct statuses give distinct label texts. */
  lemma StatusLabelIdentifies(a: ExitStatus, b: ExitStatus)
    requires StatusText(LabelText(a)) == StatusText(LabelText(b))
    ensures a == b
  {
    assert LabelText(a) == StatusText(LabelText(a))[|StatusPrefix|..];
    assert LabelText(b) == StatusText(LabelText(b))[|StatusPrefix|..];
    LabelTextInjective(a, b);
  }

  /** Clock readings that never go back from one reading to the next. */
  predicate NonDecreasing(clock: seq<nat>) {
    forall i :: 0 <= i < |clock| - 1 ==> clock[i] <= clock[i + 1]
  }

  /** With such a clock, no reading is later than any reading taken after it. */
  lemma {:induction false} ElapsedNeverDecreases(clock: seq<nat>, i: nat, j: nat)
    requires NonDecreasing(clock) && i <= j < |clock|
    ensures clock[i] <= clock[j]
  {
    if i < j {
      ElapsedNeverDecreases(clock, i, j - 1);
    }
  }

  /**
   * The time shown at each of the first `n` checkpoints (reading `j` at checkpoint `j`)
   * is at most the time shown at the end of the run (reading `n`).
   */
  lemma CheckpointTimesBeforeEnd(clock: seq<nat>, n: nat)
    requires NonDecreasing(clock) && n < |clock|
    ensures forall j :: 0 <= j <= n ==> clock[j] <= clock[n]
  {
    forall j | 0 <= j <= n
      ensures clock[j] <= clock[n]
    {
      ElapsedNeverDecreases(clock, j, n);
    }
  }

  /** Python truthiness of `p.poll()`: `None` and `0` are false. */
  predicate PollTruthy(poll: Option<int>) { poll.Some? && poll.value != 0 }

  /**
   * The status passed to the final `_update_status`: `Done`, replaced by `Halted` on
   * cancellation, replaced in turn by `Error (c)` whenever `poll()` reports a non-zero c.
   */
  function FinalStatus(cancelled: bool, poll: Option<int>): (s: ExitStatus)
    ensures s.Error? <==> PollTruthy(poll)
    ensures s.Error? ==> s.code == poll.value && s.code != 0
    ensures s == Halted <==> cancelled && !PollTruthy(poll)
    ensures s == Done <==> !cancelled && !PollTruthy(poll)
  {
    var status := if cancelled then Halted else Done;
    if PollTruthy(poll) then Error(poll.value) else status
  }

  /** The index of the first checkpoint at which the cancel flag is seen set. */
  function FirstCancel(responses: seq<bool>): (k: Option<nat>)
    ensures k.Some? ==> k.value < |responses| && responses[k.value]
    ensures k.Some? ==> forall j :: 0 <= j < k.value ==> !responses[j]
    ensures k.None? <==> forall j :: 0 <= j < |responses| ==> !responses[j]
  {
    if responses == [] then None
    else if responses[0] then Some(0)
    else match FirstCancel(responses[1..])
      case None => None
      case Some(k) => Some(k + 1)
  }

  /** Number of output lines the loop reads before it stops. */
  function Consumed(responses: seq<bool>): (n: nat)
    ensures n <= |responses|
  {
    match FirstCancel(responses)
    case None => |responses|
    case Some(k) => k + 1
  }

  /** The text a sequence of writes appends to the buffer. */
  function Concat(chunks: seq<string>): string {
    if chunks == [] then [] else chunks[0] + Concat(chunks[1..])
  }

  lemma {:induction false} ConcatAppend(a: seq<string>, b: seq<string>)
    ensures Concat(a + b) == Concat(a) + Concat(b)
  {
    if a != [] {
      assert (a + b)[1..] == a[1..] + b;
      ConcatAppend(a[1..], b);
    } else {
      assert a + b == b;
    }
  }

  /** The text of the first `n` lines grows by the `n`-th. */
  lemma ConcatSnoc(lines: seq<string>, n: nat)
    requires 0 < n <= |lines|
    ensures Concat(lines[..n]) == Concat(lines[..n - 1]) + lines[n - 1]
  {
    assert lines[..n] == lines[..n - 1] + [lines[n - 1]];
    ConcatAppend(lines[..n - 1], [lines[n - 1]]);
  }

  /**
   * Where the output loop stops: after `n` lines, with the flag set (`cancelled`) or at
   * the end of the output. Either way the buffer matches the writes of RunChunks.
   */
  lemma StopPoint(lines: seq<string>, responses: seq<bool>, n: nat, cancelled: bool)
    requires |lines| == |responses| && n <= |lines|
    requires cancelled ==> 0 < n && responses[n - 1]
    requires !cancelled ==> n == |lines|
    requires forall j :: 0 <= j < n - 1 ==> !responses[j]
    requires !cancelled ==> forall j :: 0 <= j < n ==> !responses[j]
    ensures FirstCancel(responses) == if cancelled then Some(n - 1) else None
    ensures Consumed(responses) == n
    ensures Concat(RunChunks(lines, responses)) == Concat(lines[..n]) + (if cancelled then Notice else "")
  {
    if cancelled {
      assert FirstCancel(responses) == Some(n - 1);
    }
    RunTextShape(lines, responses);
  }

  /**
   * The writes of one run, line by line as the loop performs them: each line is
   * written, then the checkpoint either stops the loop with the notice or goes on.
   */
  function RunChunks(lines: seq<string>, responses: seq<bool>): seq<string>
    requires |lines| == |responses|
  {
    if lines == [] then []
    else if responses[0] then [lines[0], Notice]
    else [lines[0]] + RunChunks(lines[1..], responses[1..])
  }

  /**
   * The writes of a run are the lines read, in order, up to and including the line
   * after which the flag was first seen set; then exactly one notice and nothing more.
   * Without such a checkpoint they are all the lines and no notice.
   */
  lemma {:induction false} RunChunksShape(lines: seq<string>, responses: seq<bool>)
    requires |lines| == |responses|
    ensures FirstCancel(responses).None? ==> RunChunks(lines, responses) == lines
    ensures FirstCancel(responses).Some? ==>
      RunChunks(lines, responses) == lines[..FirstCancel(responses).value + 1] + [Notice]
  {
    if lines != [] && !responses[0] {
      RunChunksShape(lines[1..], responses[1..]);
      match FirstCancel(responses[1..])
      case None =>
      case Some(k) =>
        assert [lines[0]] + lines[1..][..k + 1] == lines[..k + 2];
    }
  }

  /** The buffer after a run: the lines consumed, then the notice exactly when cancelled. */
  lemma RunTextShape(lines: seq<string>, responses: seq<bool>)
    requires |lines| == |responses|
    ensures Concat(RunChunks(lines, responses)) ==
      Concat(lines[..Consumed(responses)]) + (if FirstCancel(responses).Some? then Notice else "")
  {
    RunChunksShape(lines, responses);
    match FirstCancel(responses)
    case None =>
      assert lines[..|lines|] == lines;
    case Some(k) =>
      ConcatAppend(lines[..k + 1], [Notice]);
      assert Concat([Notice]) == Notice + Concat([]);
  }
}
