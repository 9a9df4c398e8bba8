/**
 * Building the argument vector that launches a script: the interpreter prefix is
 * chosen by the file name's suffix, and the selected input file, when there is
 * one, is passed as the last argument.
 */
module Command {
  import opened Wrappers

  predicate EndsWith(s: string, suffix: string) {
    |suffix| <= |s| && s[|s| - |suffix|..] == suffix
  }

  predicate IsPythonScript(filename: string) {
    EndsWith(filename, ".py") || EndsWith(filename, ".pyc")
  }

  predicate IsExecutable(filename: string) { EndsWith(filename, ".exe") }

  predicate IsShellScript(filename: string) { EndsWith(filename, ".sh") }

  predicate IsRecognized(filename: string) {
    IsPythonScript(filename) || IsExecutable(filename) || IsShellScript(filename)
  }

  /** The `ValueError` raised for any other suffix. */
  datatype CommandError = UnrecognizedExtension(filename: string)

  /** The text of the `ValueError`: it names the offending file right after `File `. */
  function ErrorMessage(e: CommandError): (m: string)
    ensures |m| > 5 + |e.filename| && m[..5] == "File " && m[5..5 + |e.filename|] == e.filename
  {
    "File " + e.filename + " has an unrecognized extension. Must be .py, .exe, or .sh."
  }

  /** Number of words before the optional input-file argument. */
  function PrefixLength(filename: string): nat {
    if IsPythonScript(filename) then 3 else if IsExecutable(filename) then 1 else 2
  }

  lemma {:induction false} EndsWithLast(s: string, suffix: string)
    requires EndsWith(s, suffix) && |suffix| > 0
    ensures s[|s| - 1] == suffix[|suffix| - 1]
  {
    assert s[|s| - |suffix|..][|suffix| - 1] == s[|s| - 1];
  }

  /** The recognised suffixes exclude each other, so the order of the tests does not matter. */
  lemma SuffixesDisjoint(filename: string)
    ensures IsPythonScript(filename) ==> !IsExecutable(filename) && !IsShellScript(filename)
    ensures IsExecutable(filename) ==> !IsShellScript(filename)
  {
    if EndsWith(filename, ".py") { EndsWithLast(filename, ".py"); }
    if EndsWith(filename, ".pyc") { EndsWithLast(filename, ".pyc"); }
    if IsExecutable(filename) { EndsWithLast(filename, ".exe"); }
    if IsShellScript(filename) { EndsWithLast(filename, ".sh"); }
  }

  /** The argument vector for `filename`, or the error for an unrecognised suffix. */
  function BuildScriptCommand(filename: string, fileArg: Option<string>): Result<seq<string>, CommandError> {
    var cmd :=
      if IsPythonScript(filename) then Success(["python", "-u", filename])
      else if IsExecutable(filename) then Success([filename])
      else if IsShellScript(filename) then Success(["bash", filename])
      else Failure(UnrecognizedExtension(filename));
    match cmd
    case Failure(e) => Failure(e)
    case Success(words) => Success(if fileArg.Some? then words + [fileArg.value] else words)
  }

  /**
   * Each recognised suffix gets its own launcher prefix whatever the order of the tests,
   * the input file is appended exactly when there is one, and any other suffix is refused.
   */
  lemma BuildScriptCommandSpec(filename: string, fileArg: Option<string>)
    ensures var r := BuildScriptCommand(filename, fileArg);
      && (r.Failure? <==> !IsRecognized(filename))
      && (r.Failure? ==> r.error == UnrecognizedExtension(filename))
      && (r.Success? ==> |r.value| == PrefixLength(filename) + (if fileArg.Some? then 1 else 0))
      && (IsPythonScript(filename) ==> r.Success? && r.value[..3] == ["python", "-u", filename])
      && (IsExecutable(filename) ==> r.Success? && r.value[..1] == [filename])
      && (IsShellScript(filename) ==> r.Success? && r.value[..2] == ["bash", filename])
      && (r.Success? && fileArg.Some? ==> r.value[|r.value| - 1] == fileArg.value)
  {
    SuffixesDisjoint(filename);
  }
}
