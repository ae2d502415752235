/** The subprocess boundary of the microk8s plugin. A call to `exec` (or to
    the docker CLI helper) is a `Command`; the external world answers it with
    an `ExecOutcome`, which may depend on every command issued before it. */
module Process {
  import opened Wrappers
  import opened Text

  /** A program with its arguments and, when set, the working directory it runs in. */
  datatype Command = Command(program: string, args: seq<string>, cwd: Option<string>)

  /** A resolved `exec` (its stdout) or a rejected one: the error object,
      whose optional `all` field holds the interleaved output. */
  datatype ExecOutcome =
    | Completed(stdout: string)
    | Rejected(all: Option<string>, message: string)

  /** What the plugin throws: a rejected command propagated as it is, or a
      `RuntimeError` with its message and the context object attached to it. */
  datatype Error =
    | ExecFailed(command: Command, all: Option<string>, message: string)
    | RuntimeError(message: string, detail: ErrorDetail)

  datatype ErrorDetail =
    | StatusContext(status: string, statusCommandResult: ExecOutcome)
    | Cause(cause: Error)

  /** How the external world answers a command, given the commands issued before it. */
  type Responder = (seq<Command>, Command) -> ExecOutcome

  /** The error thrown by a rejected command. */
  function Failure(command: Command, outcome: ExecOutcome): Error
    requires outcome.Rejected?
  {
    ExecFailed(command, outcome.all, outcome.message)
  }

  /** The message an error carries. */
  function ErrorMessage(e: Error): string
  {
    match e
    case ExecFailed(_, _, message) => message
    case RuntimeError(message, _) => message
  }

  /** The commands issued by a run of awaited steps, and what it threw, if anything. */
  datatype Run = Run(issued: seq<Command>, failure: Option<Error>)

  /** Step `j` of `steps`, issued after `history` and the steps before it, resolves. */
  predicate StepSucceeds(respond: Responder, history: seq<Command>, steps: seq<Command>, j: nat)
    requires j < |steps|
  {
    respond(history + steps[..j], steps[j]).Completed?
  }

  /** Awaiting `steps` one after the other: each is issued only when the
      previous one resolved, and the first rejection is thrown. */
  function RunSteps(respond: Responder, history: seq<Command>, steps: seq<Command>): (run: Run)
    ensures |run.issued| <= |steps|
    ensures run.failure.None? ==> |run.issued| == |steps|
    ensures run.failure.Some? ==> |run.issued| >= 1
    decreases |steps|
  {
    if |steps| == 0 then Run([], None)
    else
      var outcome := respond(history, steps[0]);
      if outcome.Rejected? then Run([steps[0]], Some(Failure(steps[0], outcome)))
      else
        var rest := RunSteps(respond, history + [steps[0]], steps[1..]);
        Run([steps[0]] + rest.issued, rest.failure)
  }

  /** A run issues a prefix of its steps: all of them when nothing is thrown;
      every issued step but the last resolved, and when something is thrown
      it is the error of the last issued step, which was rejected. */
  lemma {:induction false} RunStepsStopsAtFirstRejection(respond: Responder, history: seq<Command>, steps: seq<Command>)
    ensures var run := RunSteps(respond, history, steps);
            IsPrefix(run.issued, steps) &&
            (run.failure.None? ==> run.issued == steps) &&
            (forall j :: 0 <= j < |run.issued| && (run.failure.None? || j < |run.issued| - 1) ==>
               StepSucceeds(respond, history, steps, j)) &&
            (run.failure.Some? ==>
               |run.issued| >= 1 &&
               var k := |run.issued| - 1;
               respond(history + steps[..k], steps[k]).Rejected? &&
               run.failure.value == Failure(steps[k], respond(history + steps[..k], steps[k])))
    decreases |steps|
  {
    if |steps| > 0 {
      assert history + steps[..0] == history;
      if respond(history, steps[0]).Completed? {
        RunStepsStopsAtFirstRejection(respond, history + [steps[0]], steps[1..]);
        assert forall j :: 0 < j <= |steps| ==> (history + [steps[0]]) + steps[1..][..j - 1] == history + steps[..j];
        assert forall j :: 0 < j < |steps| ==>
          (StepSucceeds(respond, history, steps, j) <==> StepSucceeds(respond, history + [steps[0]], steps[1..], j - 1));
      }
    }
  }

  /** A run whose first step is rejected issues that step alone and throws its error. */
  lemma RunStepsFirstRejected(respond: Responder, history: seq<Command>, steps: seq<Command>)
    requires |steps| > 0 && respond(history, steps[0]).Rejected?
    ensures RunSteps(respond, history, steps) == Run([steps[0]], Some(Failure(steps[0], respond(history, steps[0]))))
  {
  }

  /** A run whose first step resolves goes on with the remaining steps. */
  lemma RunStepsFirstCompleted(respond: Responder, history: seq<Command>, steps: seq<Command>)
    requires |steps| > 0 && respond(history, steps[0]).Completed?
    ensures var rest := RunSteps(respond, history + [steps[0]], steps[1..]);
            RunSteps(respond, history, steps) == Run([steps[0]] + rest.issued, rest.failure)
  {
  }
}
