/** Image transfer (`loadImageToMicrok8s`): save the image to a temporary
    archive, find out whether microk8s runs in the multipass VM, copy the
    archive into the VM's /tmp when it does, import it into the content
    store, remove the copy in the VM, and wrap any failure in a
    `RuntimeError` that names the image. */
module ImageLoad {
  import opened Wrappers
  import opened Text
  import opened Process
  import opened MultipassProbe

  /** `docker save -o <archive> <image>`, run in the module's build directory. */
  function SaveCommand(buildPath: string, tempPath: string, imageId: string): Command
  {
    Command("docker", ["save", "-o", tempPath, imageId], Some(buildPath))
  }

  function TransferCommand(source: string, destination: string): Command
  {
    Command("multipass", ["transfer", source, MultipassVmName + ":" + destination], None)
  }

  function ImportCommand(archivePath: string): Command
  {
    Command("microk8s", ["ctr", "image", "import", archivePath], None)
  }

  function RemoveInVmCommand(archivePath: string): Command
  {
    Command("multipass", ["exec", MultipassVmName, "rm", archivePath], None)
  }

  /** The archive path the import reads: `/tmp/<base>` inside the VM, the host's temporary path otherwise. */
  function ArchivePath(inVm: bool, tempPath: string): (path: string)
    ensures !inVm ==> path == tempPath
    ensures inVm ==> IsPrefix("/tmp/", path) && '/' !in path[5..] && path[5..] == Base(tempPath)
  {
    BaseIsLastComponent(tempPath);
    if inVm then "/tmp/" + Base(tempPath) else tempPath
  }

  /** In the VM the archive keeps its file name and lands directly in /tmp. */
  lemma VmArchiveKeepsFileName(tempPath: string)
    requires |tempPath| > 0 && tempPath[|tempPath| - 1] != '/'
    ensures var path := ArchivePath(true, tempPath);
            IsSuffix(path[5..], tempPath) &&
            (|path[5..]| == |tempPath| || tempPath[|tempPath| - |path[5..]| - 1] == '/')
  {
    BaseIsLastComponent(tempPath);
  }

  /** The commands after the probe: transfer, import and removal in the VM, the import alone on the host. */
  function ImportSteps(inVm: bool, tempPath: string): (steps: seq<Command>)
    ensures var path := ArchivePath(inVm, tempPath);
            ImportCommand(path) in steps &&
            (inVm ==> steps[0] == TransferCommand(tempPath, path) && steps[|steps| - 1] == RemoveInVmCommand(path))
  {
    var path := ArchivePath(inVm, tempPath);
    if inVm then [TransferCommand(tempPath, path), ImportCommand(path), RemoveInVmCommand(path)]
    else [ImportCommand(path)]
  }

  /** The probe's listing command is none of the steps after it. */
  lemma ProbeIsNoImportStep(inVm: bool, tempPath: string)
    ensures MultipassListCommand !in ImportSteps(inVm, tempPath)
  {
  }

  /** The error thrown for any failure while loading the image. */
  function LoadFailure(imageId: string, cause: Error): (e: Error)
    ensures e.RuntimeError? && e.detail == Cause(cause)
    ensures Contains(e.message, imageId) && Contains(e.message, ErrorMessage(cause))
  {
    var lead := "An attempt to load image ";
    var middle := " into the microk8s cluster failed: ";
    var message := lead + imageId + (middle + ErrorMessage(cause));
    ContainsInfix(lead, imageId, middle + ErrorMessage(cause));
    ContainsInfix(lead + imageId + middle, ErrorMessage(cause), "");
    assert message == lead + imageId + middle + ErrorMessage(cause) + "";
    RuntimeError(message, Cause(cause))
  }

  /** What the probe answers when asked right after the save command. */
  function ProbeAfterSave(respond: Responder, decodeList: string -> Option<seq<VmEntry>>,
                          history: seq<Command>, save: Command): bool
  {
    InMultipassVm(respond(history + [save], MultipassListCommand), decodeList)
  }

  /** What the `tmp.withFile` callback issues after `history`, and the error
      that escapes it: save, probe, then the import steps, stopping at the
      first rejection. */
  function LoadAttempt(respond: Responder, decodeList: string -> Option<seq<VmEntry>>, history: seq<Command>,
                       buildPath: string, imageId: string, tempPath: string): (attempt: Run)
    ensures |attempt.issued| >= 1 && attempt.issued[0] == SaveCommand(buildPath, tempPath, imageId)
    ensures respond(history, SaveCommand(buildPath, tempPath, imageId)).Rejected? <==> attempt.issued == [SaveCommand(buildPath, tempPath, imageId)] && attempt.failure.Some?
  {
    var save := SaveCommand(buildPath, tempPath, imageId);
    var saved := respond(history, save);
    if saved.Rejected? then Run([save], Some(Failure(save, saved)))
    else
      var inVm := ProbeAfterSave(respond, decodeList, history, save);
      var rest := RunSteps(respond, history + [save, MultipassListCommand], ImportSteps(inVm, tempPath));
      Run([save, MultipassListCommand] + rest.issued, rest.failure)
  }

  /** The commands `loadImageToMicrok8s` issues after `history`, and what it
      throws: the attempt's commands, with its error wrapped by the catch block. */
  function LoadImageRun(respond: Responder, decodeList: string -> Option<seq<VmEntry>>, history: seq<Command>,
                        buildPath: string, imageId: string, tempPath: string): (run: Run)
    ensures |run.issued| >= 1 && run.issued[0] == SaveCommand(buildPath, tempPath, imageId)
    ensures run.failure.Some? ==>
              run.failure.value.RuntimeError? && Contains(run.failure.value.message, imageId)
  {
    var attempt := LoadAttempt(respond, decodeList, history, buildPath, imageId, tempPath);
    Run(attempt.issued, WrapFailure(imageId, attempt.failure))
  }

  /** The catch block: any error becomes the load failure for the image. */
  function WrapFailure(imageId: string, failure: Option<Error>): (wrapped: Option<Error>)
    ensures wrapped.Some? <==> failure.Some?
    ensures wrapped.Some? ==>
              wrapped.value.RuntimeError? && wrapped.value.detail == Cause(failure.value) &&
              Contains(wrapped.value.message, imageId) && Contains(wrapped.value.message, ErrorMessage(failure.value))
  {
    if failure.Some? then Some(LoadFailure(imageId, failure.value)) else None
  }

  /** Once the save resolved, the attempt is the save, the probe and a run of the import steps. */
  lemma LoadAttemptAfterSave(respond: Responder, decodeList: string -> Option<seq<VmEntry>>, history: seq<Command>,
                             buildPath: string, imageId: string, tempPath: string)
    requires respond(history, SaveCommand(buildPath, tempPath, imageId)).Completed?
    ensures var save := SaveCommand(buildPath, tempPath, imageId);
            var rest := RunSteps(respond, history + [save, MultipassListCommand],
                                 ImportSteps(ProbeAfterSave(respond, decodeList, history, save), tempPath));
            LoadAttempt(respond, decodeList, history, buildPath, imageId, tempPath) ==
            Run([save, MultipassListCommand] + rest.issued, rest.failure)
  {
  }

  /** `goal` is what remains of an attempt once `issued` has been issued: `remaining` run after `history`. */
  predicate AttemptContinues(goal: Run, respond: Responder, history: seq<Command>,
                             issued: seq<Command>, remaining: seq<Command>)
  {
    var rest := RunSteps(respond, history, remaining);
    goal == Run(issued + rest.issued, rest.failure)
  }

  /** A resolved step moves from the remaining steps to the issued ones. */
  lemma AttemptContinuesAfterStep(goal: Run, respond: Responder, history: seq<Command>,
                                  issued: seq<Command>, remaining: seq<Command>)
    requires AttemptContinues(goal, respond, history, issued, remaining)
    requires |remaining| > 0 && respond(history, remaining[0]).Completed?
    ensures AttemptContinues(goal, respond, history + [remaining[0]], issued + [remaining[0]], remaining[1..])
  {
    RunStepsFirstCompleted(respond, history, remaining);
    var rest := RunSteps(respond, history + [remaining[0]], remaining[1..]);
    assert issued + ([remaining[0]] + rest.issued) == (issued + [remaining[0]]) + rest.issued;
  }

  /** A rejected step ends the attempt with the error of that step. */
  lemma AttemptEndsAtRejectedStep(goal: Run, respond: Responder, history: seq<Command>,
                                  issued: seq<Command>, remaining: seq<Command>)
    requires AttemptContinues(goal, respond, history, issued, remaining)
    requires |remaining| > 0 && respond(history, remaining[0]).Rejected?
    ensures goal == Run(issued + [remaining[0]], Some(Failure(remaining[0], respond(history, remaining[0]))))
  {
    RunStepsFirstRejected(respond, history, remaining);
  }

  /** The full command sequence of a load that does not fail. */
  function PlannedCommands(respond: Responder, decodeList: string -> Option<seq<VmEntry>>, history: seq<Command>,
                           buildPath: string, imageId: string, tempPath: string): seq<Command>
  {
    var save := SaveCommand(buildPath, tempPath, imageId);
    [save, MultipassListCommand] + ImportSteps(ProbeAfterSave(respond, decodeList, history, save), tempPath)
  }

  /** Steps run after a fixed prefix of commands: what is issued is a prefix
      of the prefix followed by the steps, and a failure is that of the last
      issued command, which is one of the steps. */
  lemma {:induction false} RunAfterPrefix(respond: Responder, history: seq<Command>, prefix: seq<Command>, steps: seq<Command>)
    ensures var rest := RunSteps(respond, history + prefix, steps);
            var issued := prefix + rest.issued;
            IsPrefix(issued, prefix + steps) &&
            (rest.failure.None? ==> issued == prefix + steps) &&
            (rest.failure.Some? ==>
               var k := |issued| - 1;
               |prefix| <= k && issued[k] in steps &&
               respond(history + issued[..k], issued[k]).Rejected? &&
               rest.failure.value == Failure(issued[k], respond(history + issued[..k], issued[k])))
  {
    var rest := RunSteps(respond, history + prefix, steps);
    var issued := prefix + rest.issued;
    RunStepsStopsAtFirstRejection(respond, history + prefix, steps);
    assert rest.issued == steps[..|rest.issued|];
    assert (prefix + steps)[..|issued|] == prefix + steps[..|rest.issued|];
    if rest.failure.Some? {
      var k := |rest.issued| - 1;
      assert issued[|prefix| + k] == rest.issued[k] == steps[k];
      assert issued[..|prefix| + k] == prefix + steps[..k];
      assert history + issued[..|prefix| + k] == (history + prefix) + steps[..k];
    }
  }

  /** Steps run after a fixed prefix of commands: an issued step that is not
      a rejected last one resolved, given everything issued before it. */
  lemma RunAfterPrefixResolves(respond: Responder, history: seq<Command>, prefix: seq<Command>, steps: seq<Command>, j: nat)
    requires var rest := RunSteps(respond, history + prefix, steps);
             |prefix| <= j < |prefix| + |rest.issued| &&
             (rest.failure.None? || j < |prefix| + |rest.issued| - 1)
    ensures var issued := prefix + RunSteps(respond, history + prefix, steps).issued;
            respond(history + issued[..j], issued[j]).Completed?
  {
    var rest := RunSteps(respond, history + prefix, steps);
    var issued := prefix + rest.issued;
    var i := j - |prefix|;
    RunStepsStopsAtFirstRejection(respond, history + prefix, steps);
    assert StepSucceeds(respond, history + prefix, steps, i);
    assert issued[j] == rest.issued[i] == steps[i];
    assert issued[..j] == prefix + steps[..i];
    assert history + issued[..j] == (history + prefix) + steps[..i];
  }

  /** A load either issues the whole planned sequence and returns, or stops
      right after the first rejected command (never the probe) and throws a
      `RuntimeError` naming the image and wrapping that command's error. */
  lemma LoadImageStopsAtFirstFailure(respond: Responder, decodeList: string -> Option<seq<VmEntry>>,
                                     history: seq<Command>, buildPath: string, imageId: string, tempPath: string)
    ensures var run := LoadImageRun(respond, decodeList, history, buildPath, imageId, tempPath);
            var plan := PlannedCommands(respond, decodeList, history, buildPath, imageId, tempPath);
            IsPrefix(run.issued, plan) &&
            (run.failure.None? ==> run.issued == plan) &&
            (run.failure.Some? ==>
               var k := |run.issued| - 1;
               k >= 0 && run.issued[k] != MultipassListCommand &&
               respond(history + run.issued[..k], run.issued[k]).Rejected? &&
               run.failure.value == LoadFailure(imageId, Failure(run.issued[k], respond(history + run.issued[..k], run.issued[k]))))
  {
    var save := SaveCommand(buildPath, tempPath, imageId);
    var run := LoadImageRun(respond, decodeList, history, buildPath, imageId, tempPath);
    if respond(history, save).Rejected? {
      assert run.issued == [save];
      assert history + run.issued[..0] == history;
    } else {
      var inVm := ProbeAfterSave(respond, decodeList, history, save);
      var steps := ImportSteps(inVm, tempPath);
      var rest := RunSteps(respond, history + [save, MultipassListCommand], steps);
      RunAfterPrefix(respond, history, [save, MultipassListCommand], steps);
      ProbeIsNoImportStep(inVm, tempPath);
      assert run.issued == [save, MultipassListCommand] + rest.issued;
      assert run.failure == WrapFailure(imageId, rest.failure);
    }
  }

  /** Every command a load issued before the one that ended it, the probe
      aside, resolved; when nothing is thrown, every command but the probe
      resolved. In particular a rejected save always makes the load throw. */
  lemma LoadResolvesBeforeFailure(respond: Responder, decodeList: string -> Option<seq<VmEntry>>,
                                  history: seq<Command>, buildPath: string, imageId: string, tempPath: string)
    ensures var run := LoadImageRun(respond, decodeList, history, buildPath, imageId, tempPath);
            forall j :: 0 <= j < |run.issued| && run.issued[j] != MultipassListCommand &&
                        (run.failure.None? || j < |run.issued| - 1) ==>
              respond(history + run.issued[..j], run.issued[j]).Completed?
  {
    var save := SaveCommand(buildPath, tempPath, imageId);
    var run := LoadImageRun(respond, decodeList, history, buildPath, imageId, tempPath);
    if respond(history, save).Completed? {
      var steps := ImportSteps(ProbeAfterSave(respond, decodeList, history, save), tempPath);
      var rest := RunSteps(respond, history + [save, MultipassListCommand], steps);
      var issued := [save, MultipassListCommand] + rest.issued;
      assert run.issued == issued;
      assert run.failure.None? <==> rest.failure.None?;
      forall j | 0 <= j < |issued| && issued[j] != MultipassListCommand && (rest.failure.None? || j < |issued| - 1)
        ensures respond(history + issued[..j], issued[j]).Completed?
      {
        if j == 0 {
          assert history + issued[..0] == history;
        } else {
          RunAfterPrefixResolves(respond, history, [save, MultipassListCommand], steps, j);
        }
      }
    }
  }

  /** On the host the load issues save, probe and import of the host archive, and nothing else. */
  lemma LoadOnHost(respond: Responder, decodeList: string -> Option<seq<VmEntry>>, history: seq<Command>,
                   buildPath: string, imageId: string, tempPath: string)
    requires !ProbeAfterSave(respond, decodeList, history, SaveCommand(buildPath, tempPath, imageId))
    requires LoadImageRun(respond, decodeList, history, buildPath, imageId, tempPath).failure.None?
    ensures LoadImageRun(respond, decodeList, history, buildPath, imageId, tempPath).issued ==
            [SaveCommand(buildPath, tempPath, imageId), MultipassListCommand, ImportCommand(tempPath)]
  {
    LoadImageStopsAtFirstFailure(respond, decodeList, history, buildPath, imageId, tempPath);
  }

  /** In the VM the load issues save, probe, transfer into /tmp, import from
      /tmp and removal from /tmp, all with the same in-VM path. */
  lemma LoadInVm(respond: Responder, decodeList: string -> Option<seq<VmEntry>>, history: seq<Command>,
                 buildPath: string, imageId: string, tempPath: string)
    requires ProbeAfterSave(respond, decodeList, history, SaveCommand(buildPath, tempPath, imageId))
    requires LoadImageRun(respond, decodeList, history, buildPath, imageId, tempPath).failure.None?
    ensures var vmPath := "/tmp/" + Base(tempPath);
            LoadImageRun(respond, decodeList, history, buildPath, imageId, tempPath).issued ==
            [SaveCommand(buildPath, tempPath, imageId), MultipassListCommand,
             TransferCommand(tempPath, vmPath), ImportCommand(vmPath), RemoveInVmCommand(vmPath)]
  {
    var vmPath := "/tmp/" + Base(tempPath);
    assert ArchivePath(true, tempPath) == vmPath;
    assert ImportSteps(true, tempPath) == [TransferCommand(tempPath, vmPath), ImportCommand(vmPath), RemoveInVmCommand(vmPath)];
    LoadImageStopsAtFirstFailure(respond, decodeList, history, buildPath, imageId, tempPath);
  }

  /** When the import is rejected inside the VM the load throws right away:
      the copy transferred into the VM's /tmp is not removed. */
  lemma VmCopyKeptWhenImportRejected(respond: Responder, decodeList: string -> Option<seq<VmEntry>>, history: seq<Command>,
                                     buildPath: string, imageId: string, tempPath: string)
    requires var save := SaveCommand(buildPath, tempPath, imageId);
             var vmPath := "/tmp/" + Base(tempPath);
             respond(history, save).Completed? &&
             ProbeAfterSave(respond, decodeList, history, save) &&
             respond(history + [save, MultipassListCommand], TransferCommand(tempPath, vmPath)).Completed? &&
             respond(history + [save, MultipassListCommand, TransferCommand(tempPath, vmPath)], ImportCommand(vmPath)).Rejected?
    ensures var vmPath := "/tmp/" + Base(tempPath);
            var run := LoadImageRun(respond, decodeList, history, buildPath, imageId, tempPath);
            run.failure.Some? && RemoveInVmCommand(vmPath) !in run.issued &&
            run.issued == [SaveCommand(buildPath, tempPath, imageId), MultipassListCommand,
                           TransferCommand(tempPath, vmPath), ImportCommand(vmPath)]
  {
    var save := SaveCommand(buildPath, tempPath, imageId);
    var vmPath := "/tmp/" + Base(tempPath);
    var steps := [TransferCommand(tempPath, vmPath), ImportCommand(vmPath), RemoveInVmCommand(vmPath)];
    var h := history + [save, MultipassListCommand];
    assert ImportSteps(true, tempPath) == steps;
    LoadAttemptAfterSave(respond, decodeList, history, buildPath, imageId, tempPath);
    RunStepsFirstCompleted(respond, h, steps);
    assert h + [steps[0]] == history + [save, MultipassListCommand, TransferCommand(tempPath, vmPath)];
    RunStepsFirstRejected(respond, h + [steps[0]], steps[1..]);
  }
}
