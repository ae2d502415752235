/** The microk8s plugin's entry points, run against a shell that records
    every command it is asked to run. Each method issues its commands in the
    source's order and is proved to leave exactly the trace, and to return
    or throw exactly what, the specification functions of the modules
    Addons, ImageStatus, MultipassProbe and ImageLoad describe. */
module Microk8s {
  import opened Wrappers
  import opened Text
  import opened Process
  import opened Addons
  import opened ImageStatus
  import opened MultipassProbe
  import opened ImageLoad

  /** `exec` and the docker CLI helper: `trace` holds the commands issued so
      far, and `respond` is how the outside world answers the next one. */
  class Shell {
    const respond: Responder
    var trace: seq<Command>

    constructor (respond: Responder)
      ensures this.respond == respond && trace == []
    {
      this.respond := respond;
      trace := [];
    }

    /** Issue one command and await its outcome. */
    method Exec(command: Command) returns (outcome: ExecOutcome)
      modifies this
      ensures trace == old(trace) + [command]
      ensures outcome == respond(old(trace), command)
    {
      outcome := respond(trace, command);
      trace := trace + [command];
    }

    /** `configureMicrok8sAddons(log, addons)`. */
    method ConfigureMicrok8sAddons(addons: seq<string>) returns (r: Result<AddonsReport, Error>)
      modifies this
      ensures var statusOutcome := respond(old(trace), StatusCommand);
              trace == old(trace) + AddonCommands(addons, statusOutcome) &&
              r == AddonsResult(addons, statusOutcome,
                                respond(old(trace) + [StatusCommand], EnableCommand(MissingAddons(addons, StatusText(statusOutcome)))))
    {
      var statusCommandResult := Exec(StatusCommand);
      var status := "";
      match statusCommandResult {
        case Completed(stdout) =>
          status := stdout;
        case Rejected(all, _) =>
          if PermissionDenied(all) {
            return Ok(PermissionWarning(addons));
          }
      }

      if !Contains(status, RunningMarker) {
        return Err(RuntimeError(StatusUnavailableMessage, StatusContext(status, statusCommandResult)));
      }

      var missingAddons := MissingAddons(addons, status);
      if |missingAddons| > 0 {
        var enabled := Exec(EnableCommand(missingAddons));
        if enabled.Rejected? {
          return Err(Failure(EnableCommand(missingAddons), enabled));
        }
      }
      return Ok(Reconciled(missingAddons));
    }

    /** `getMicrok8sImageStatus(imageId)`, with the image id parser and formatter as parameters. */
    method GetMicrok8sImageStatus(imageId: string, parseImageId: string -> ImageRef, unparseImageId: ImageRef -> string)
      returns (r: Result<BuildStatus, Error>)
      modifies this
      ensures trace == old(trace) + [ListImagesCommand]
      ensures r == ImageStatusResult(respond(old(trace), ListImagesCommand),
                                     ClusterImageId(parseImageId, unparseImageId, imageId))
    {
      var parsedId := parseImageId(imageId);
      var clusterId := unparseImageId(WithRegistryDefaults(parsedId));
      var res := Exec(ListImagesCommand);
      if res.Rejected? {
        return Err(Failure(ListImagesCommand, res));
      }
      return Ok(BuildStatus(clusterId in SplitLines(res.stdout)));
    }

    /** `isMicrok8sRunningInMultipassVM()`, with the JSON decoder as a parameter. */
    method IsMicrok8sRunningInMultipassVM(decodeList: string -> Option<seq<VmEntry>>) returns (inVm: bool)
      modifies this
      ensures trace == old(trace) + [MultipassListCommand]
      ensures inVm == InMultipassVm(respond(old(trace), MultipassListCommand), decodeList)
    {
      var res := Exec(MultipassListCommand);
      if res.Rejected? {
        return false;
      }
      var data := decodeList(res.stdout);
      if data.None? {
        return false;
      }
      return AnyNamed(data.value, MultipassVmName);
    }

    /** `loadImageToMicrok8s({ module, imageId, log, ctx })`: `buildPath` is
        the module's build path and `tempPath` the temporary file's path. */
    method LoadImageToMicrok8s(buildPath: string, imageId: string, tempPath: string,
                               decodeList: string -> Option<seq<VmEntry>>) returns (failure: Option<Error>)
      modifies this
      ensures var run := LoadImageRun(respond, decodeList, old(trace), buildPath, imageId, tempPath);
              trace == old(trace) + run.issued && failure == run.failure
    {
      var err := LoadFromTempFile(buildPath, imageId, tempPath, decodeList);
      if err.Some? {
        return Some(LoadFailure(imageId, err.value));
      }
      return None;
    }

    /** The callback `loadImageToMicrok8s` hands to `tmp.withFile`, run on the
        temporary file at `tempPath`; a rejected command escapes it unchanged. */
    method LoadFromTempFile(buildPath: string, imageId: string, tempPath: string,
                            decodeList: string -> Option<seq<VmEntry>>) returns (err: Option<Error>)
      modifies this
      ensures var attempt := LoadAttempt(respond, decodeList, old(trace), buildPath, imageId, tempPath);
              trace == old(trace) + attempt.issued && err == attempt.failure
    {
      var save := SaveCommand(buildPath, tempPath, imageId);
      var saved := Exec(save);
      if saved.Rejected? {
        return Some(Failure(save, saved));
      }
      LoadAttemptAfterSave(respond, decodeList, old(trace), buildPath, imageId, tempPath);

      var isInMultipassVM := IsMicrok8sRunningInMultipassVM(decodeList);
      var sourceFilePath := tempPath;
      var filePath := if isInMultipassVM then "/tmp/" + Base(tempPath) else sourceFilePath;
      assert filePath == ArchivePath(isInMultipassVM, tempPath);

      // The attempt is `issued` followed by a run of `remaining` after the current trace.
      ghost var goal := LoadAttempt(respond, decodeList, old(trace), buildPath, imageId, tempPath);
      ghost var issued := [save, MultipassListCommand];
      ghost var remaining := ImportSteps(isInMultipassVM, tempPath);
      assert trace == old(trace) + issued;
      assert AttemptContinues(goal, respond, trace, issued, remaining);

      if isInMultipassVM {
        var transferred := Exec(TransferCommand(sourceFilePath, filePath));
        if transferred.Rejected? {
          AttemptEndsAtRejectedStep(goal, respond, old(trace) + issued, issued, remaining);
          return Some(Failure(TransferCommand(sourceFilePath, filePath), transferred));
        }
        AttemptContinuesAfterStep(goal, respond, old(trace) + issued, issued, remaining);
        issued, remaining := issued + [remaining[0]], remaining[1..];
        assert trace == old(trace) + issued;
      }

      assert remaining[0] == ImportCommand(filePath);
      var imported := Exec(ImportCommand(filePath));
      if imported.Rejected? {
        AttemptEndsAtRejectedStep(goal, respond, old(trace) + issued, issued, remaining);
        return Some(Failure(ImportCommand(filePath), imported));
      }
      AttemptContinuesAfterStep(goal, respond, old(trace) + issued, issued, remaining);
      issued, remaining := issued + [remaining[0]], remaining[1..];
      assert trace == old(trace) + issued;

      if isInMultipassVM {
        assert remaining[0] == RemoveInVmCommand(filePath);
        var removed := Exec(RemoveInVmCommand(filePath));
        if removed.Rejected? {
          AttemptEndsAtRejectedStep(goal, respond, old(trace) + issued, issued, remaining);
          return Some(Failure(RemoveInVmCommand(filePath), removed));
        }
        AttemptContinuesAfterStep(goal, respond, old(trace) + issued, issued, remaining);
        issued, remaining := issued + [remaining[0]], remaining[1..];
        assert trace == old(trace) + issued;
      }
      assert remaining == [];
      return None;
    }
  }
}
