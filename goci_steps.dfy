/**
 * A pipeline step of the CI runner: one external command, run to completion
 * in the project directory, that either succeeds with a fixed message or
 * fails with a `stepErr`. Launching the process is not modelled: `Execute`
 * takes the launcher as a function from the command line to the error that
 * `cmd.Run` returns (None for a clean exit).
 */
module GociSteps {
  import opened Wrappers
  import GociErrors

  /** `step`: name, executable, arguments, success message and project directory. */
  datatype Step = Step(name: string, exe: string, args: seq<string>, message: string, proj: string)
  {
    /** The command `execute` builds: `exec.Command(exe, args...)` with `Dir` set to `proj`. */
    function CommandLine(): (c: Command)
      ensures c.exe == exe && c.args == args && c.dir == proj
    {
      Command(exe, args, proj)
    }

    /**
     * `step.execute`: run the command once; a clean exit gives the success
     * message and no error, a failure gives no message and a `stepErr` of
     * this step whose cause is the failure.
     */
    function Execute(run: Command -> Option<GociErrors.Error>): (r: Outcome)
      ensures r.err.None? <==> run(CommandLine()).None?
      ensures r.err.None? ==> r.output == message
      ensures r.err.Some? ==> r.output == ""
                              && r.err.value.Step?
                              && r.err.value.err.step == name
                              && r.err.value.err.msg == FailedToExecute
                              && r.err.value.err.Unwrap() == run(CommandLine())
    {
      var failure := run(CommandLine());
      if failure.Some? then
        Outcome("", Some(GociErrors.Step(GociErrors.StepErr(name, FailedToExecute, failure))))
      else
        Outcome(message, None)
    }
  }

  /** A command line: the executable, its arguments, and the working directory it runs in. */
  datatype Command = Command(exe: string, args: seq<string>, dir: string)

  /** Go's `(string, error)` result of `execute`. */
  datatype Outcome = Outcome(output: string, err: Option<GociErrors.Error>)

  /** The reason a bare step gives for a failed run, spelled as the source spells it. */
  const FailedToExecute: string := "falied to execute"

  /** `newStep`: the arguments land unchanged in the fields of the same meaning. */
  function NewStep(name: string, exe: string, message: string, proj: string, args: seq<string>): (s: Step)
    ensures s.name == name && s.exe == exe && s.message == message
    ensures s.proj == proj && s.args == args
  {
    Step(name, exe, args, message, proj)
  }

  /**
   * `execute` launches exactly the step's command and nothing else: two
   * launchers that agree on that one command give the same outcome.
   */
  lemma ExecuteRunsOnlyItsCommand(s: Step, run1: Command -> Option<GociErrors.Error>, run2: Command -> Option<GociErrors.Error>)
    requires run1(Command(s.exe, s.args, s.proj)) == run2(Command(s.exe, s.args, s.proj))
    ensures s.Execute(run1) == s.Execute(run2)
  {
  }

  /**
   * A failure is recognised by step name: `errors.Is` matches it against any
   * `stepErr` of the same step, and also against the run error it wraps.
   */
  lemma ExecuteFailureIdentifiesStep(s: Step, run: Command -> Option<GociErrors.Error>, msg: string)
    requires run(s.CommandLine()).Some?
    ensures var r := s.Execute(run);
            && r.err.Some?
            && GociErrors.ErrorsIs(r.err.value, GociErrors.Step(GociErrors.StepErr(s.name, msg, None)))
            && GociErrors.ErrorsIs(r.err.value, run(s.CommandLine()).value)
  {
  }
}
