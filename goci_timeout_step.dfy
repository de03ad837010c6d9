/**
 * A pipeline step with a time budget. The command runs under a context that
 * expires after `timeout`; a failed run is reported as a time-out when that
 * deadline has passed and as an ordinary failure otherwise. The launcher (the
 * package variable `command`, which tests replace) is a parameter: given the
 * command line and the time budget, it reports the error of `cmd.Run` and
 * whether the context's deadline was exceeded.
 */
module GociTimeoutStep {
  import opened Wrappers
  import GociErrors
  import opened GociSteps

  /** `time.Duration`: a signed 64-bit count of nanoseconds. */
  newtype Duration = d: int | -0x8000_0000_0000_0000 <= d < 0x8000_0000_0000_0000

  /** `time.Second`. */
  const Second: Duration := 1_000_000_000

  /** The budget of a step created with a zero timeout: `30 * time.Second`. */
  const DefaultTimeout: Duration := 30 * Second

  /** What the launcher reports after the run: `cmd.Run`'s error and whether `ctx.Err()` is `DeadlineExceeded`. */
  datatype RunReport = RunReport(err: Option<GociErrors.Error>, deadlineExceeded: bool)

  /** The reasons a timed step gives for a failure. */
  const FailedTimeOut: string := "failed time out"
  const FailedToExecuteTimed: string := "failed to execute"

  /** `timeoutStep`: a step (embedded) and its time budget. */
  datatype TimeoutStep = TimeoutStep(step: Step, timeout: Duration)
  {
    /**
     * `timeoutStep.execute`: run the command under the time budget. Success
     * gives the success message; a failure after the deadline gives a
     * time-out `stepErr` whose cause is `DeadlineExceeded`, the run's own
     * error being dropped; any other failure gives a `stepErr` wrapping it.
     */
    function Execute(launch: (Command, Duration) -> RunReport): (r: Outcome)
      ensures var report := launch(step.CommandLine(), timeout);
              && (r.err.None? <==> report.err.None?)
              && (r.err.None? ==> r.output == step.message)
              && (r.err.Some? ==> r.output == "" && r.err.value.Step? && r.err.value.err.step == step.name)
              && (report.err.Some? && report.deadlineExceeded ==>
                    r.err.value.err.msg == FailedTimeOut
                    && r.err.value.err.Unwrap() == Some(GociErrors.DeadlineExceeded))
              && (report.err.Some? && !report.deadlineExceeded ==>
                    r.err.value.err.msg == FailedToExecuteTimed
                    && r.err.value.err.Unwrap() == report.err)
    {
      var report := launch(step.CommandLine(), timeout);
      if report.err.Some? then
        if report.deadlineExceeded then
          Outcome("", Some(GociErrors.Step(GociErrors.StepErr(step.name, FailedTimeOut, Some(GociErrors.DeadlineExceeded)))))
        else
          Outcome("", Some(GociErrors.Step(GociErrors.StepErr(step.name, FailedToExecuteTimed, report.err))))
      else
        Outcome(step.message, None)
    }
  }

  /**
   * `newTimeoutStep`: the embedded step is `newStep` of the same arguments;
   * a zero timeout becomes 30 seconds and any other value, negative ones
   * included, is kept.
   */
  function NewTimeoutStep(name: string, exe: string, message: string, proj: string, args: seq<string>,
                          timeout: Duration): (t: TimeoutStep)
    ensures t.step == NewStep(name, exe, message, proj, args)
    ensures timeout == 0 ==> t.timeout == DefaultTimeout
    ensures timeout != 0 ==> t.timeout == timeout
    ensures t.timeout != 0
  {
    var s := TimeoutStep(NewStep(name, exe, message, proj, args), timeout);
    if s.timeout == 0 then s.(timeout := DefaultTimeout) else s
  }

  /** The default budget is thirty seconds' worth of nanoseconds. */
  lemma DefaultIsThirtySeconds()
    ensures DefaultTimeout as int == 30_000_000_000
  {
  }

  /**
   * A timed-out run is recognised both as a failure of its step and, through
   * `Unwrap`, as `context.DeadlineExceeded`; what the process itself returned
   * makes no difference.
   */
  lemma TimeOutIsDeadlineExceeded(t: TimeoutStep, launch: (Command, Duration) -> RunReport, msg: string)
    requires launch(t.step.CommandLine(), t.timeout).err.Some?
    requires launch(t.step.CommandLine(), t.timeout).deadlineExceeded
    ensures var r := t.Execute(launch);
            && r.err.Some?
            && GociErrors.ErrorsIs(r.err.value, GociErrors.DeadlineExceeded)
            && GociErrors.ErrorsIs(r.err.value, GociErrors.Step(GociErrors.StepErr(t.step.name, msg, None)))
            && !GociErrors.ErrorsIs(r.err.value, GociErrors.ErrSignal)
  {
  }

  /**
   * Without an expired deadline a timed step behaves like the bare step
   * running the same command: same message, same success or failure, and on
   * failure a `stepErr` of the same step and cause. The two differ only in
   * the spelling of the reason ("failed to execute" against the bare step's
   * "falied to execute").
   */
  lemma AgreesWithBareStep(t: TimeoutStep, launch: (Command, Duration) -> RunReport)
    requires !launch(t.step.CommandLine(), t.timeout).deadlineExceeded
    ensures var timed := t.Execute(launch);
            var bare := t.step.Execute(c => launch(c, t.timeout).err);
            && timed.output == bare.output
            && (timed.err.None? <==> bare.err.None?)
            && (timed.err.Some? ==>
                  timed.err.value == GociErrors.Step(bare.err.value.err.(msg := FailedToExecuteTimed)))
  {
  }

  /** On success the time budget plays no part: every budget gives the success message. */
  lemma SuccessWhateverTheTimeout(s: Step, d1: Duration, d2: Duration, launch: (Command, Duration) -> RunReport)
    requires launch(s.CommandLine(), d1).err.None? && launch(s.CommandLine(), d2).err.None?
    ensures TimeoutStep(s, d1).Execute(launch) == TimeoutStep(s, d2).Execute(launch) == Outcome(s.message, None)
  {
  }
}
