/**
  The boundary to the AppleScript interpreter. `run_applescript` feeds a
  script to `osascript -` on standard input and waits for it to exit; the
  interpreter itself is an oracle here, a function from the script text to
  the exit status and the two output streams.
 */
module Osascript {

  /** What `p.communicate(...)` and `p.returncode` yield once `osascript` exits. */
  datatype Completion = Completion(returnCode: int, stdout: string, stderr: string)

  /** The interpreter as seen from outside: a script in, a completion out. */
  type Interpreter = string -> Completion

  /** How a tool call ends: a returned string, or a raised `Exception` carrying its message. */
  datatype Outcome = Returned(value: string) | Raised(error: string)

  /** The scripts a call submits to the interpreter, in order, and how the call ends. */
  datatype Effect = Effect(submitted: seq<string>, outcome: Outcome)

  /** `run_applescript`: submit one script; a nonzero exit raises with stderr, exit 0 returns stdout. */
  function RunApplescript(osascript: Interpreter, applescript: string): (e: Effect)
    ensures e.submitted == [applescript]
    ensures e.outcome.Raised? <==> osascript(applescript).returnCode != 0
    ensures e.outcome.Raised? ==> e.outcome.error == osascript(applescript).stderr
    ensures e.outcome.Returned? ==> e.outcome.value == osascript(applescript).stdout
  {
    var c := osascript(applescript);
    Effect([applescript], if c.returnCode != 0 then Raised(c.stderr) else Returned(c.stdout))
  }

  /**
    A call that submitted exactly one script and then returned `message`,
    unless the interpreter failed, in which case the failure propagates.
   */
  ghost predicate ReportsAfterRun(osascript: Interpreter, e: Effect, message: string)
  {
    && |e.submitted| == 1
    && var c := osascript(e.submitted[0]);
       e.outcome == if c.returnCode != 0 then Raised(c.stderr) else Returned(message)
  }

  /** What the fixed-message tools do: run, discard stdout, then return `message` if nothing was raised. */
  function ThenReturn(run: Effect, message: string): Effect
  {
    Effect(run.submitted, if run.outcome.Raised? then run.outcome else Returned(message))
  }
}
