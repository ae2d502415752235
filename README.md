# microk8s local-cluster provisioning, modelled in Dafny

This project models the microk8s support of the Garden Kubernetes plugin
(`core/src/plugins/kubernetes/local/microk8s.ts`). That code does four things:

- **Addon reconciliation** (`configureMicrok8sAddons`). It runs `microk8s status`.
  When the user lacks permission to run it, it warns and returns. When the cluster
  is not running, it throws. Otherwise it enables, with one batched
  `microk8s enable`, the required addons that the status does not report as enabled.
- **Image presence check** (`getMicrok8sImageStatus`). It normalises an image id
  with the default host `docker.io` and the default namespace `library`. The image
  is ready when that id is one whole line of `microk8s ctr images ls -q`.
- **VM probe** (`isMicrok8sRunningInMultipassVM`). It answers true when
  `multipass list --format json` lists a machine named `microk8s-vm`. Any failure
  means false.
- **Image transfer** (`loadImageToMicrok8s`). It runs `docker save` to a temporary
  archive and then probes for the VM. Inside the VM it transfers the archive to
  `/tmp/<base>`, imports it with `microk8s ctr image import`, and then removes the
  copy from the VM. On the host it imports the archive in place. Any failure is
  rethrown as a `RuntimeError` that names the image.

Subprocesses are abstracted. The class `Microk8s.Shell` keeps the trace of the
commands it was asked to run (`trace`). The outside world is an oracle
`respond(history, command)`, which answers each command given all the commands
issued before it. Each of the four entry points is a method of `Shell`. Each
method is proved to extend the trace by exactly the commands that a specification
function gives, and to return or throw exactly what that function gives:

- `Addons.AddonCommands` and `Addons.AddonsResult` for addon reconciliation;
- `ImageStatus.ImageStatusResult` for the image presence check;
- `MultipassProbe.InMultipassVm` for the VM probe;
- `ImageLoad.LoadImageRun` for the image transfer, built on `ImageLoad.LoadAttempt`, the commands of the `tmp.withFile` callback.

The lemmas state the source's promises about those functions. The modules are:

- `Text`: the JavaScript built-ins that are used (`includes`, `split("\n")`,
  `path.parse(..).base`).
- `Process`: commands, outcomes, errors, and `RunSteps`, the semantics of
  awaiting commands one after another.
- `Addons`, `ImageStatus`, `MultipassProbe`, `ImageLoad`: the four pieces.
- `Microk8s`: the `Shell` class.

The image-id parser and formatter (`containerHelpers.parseImageId` and
`unparseImageId`), and `JSON.parse` of the multipass listing followed by reading
its `list` array, are function parameters. `None` stands for any failure to
decode the listing or to read the names in it.

## Model

| member | source | states |
|---|---|---|
| Microk8s.Shell.Exec | core/src/plugins/kubernetes/local/microk8s.ts:27 | issuing a command appends it to the trace, and the outcome is the outside world's answer given the earlier commands |
| Microk8s.Shell.ConfigureMicrok8sAddons | core/src/plugins/kubernetes/local/microk8s.ts:22-56 | the trace grows by exactly `AddonCommands` and the result is `AddonsResult` for the status outcome the shell received |
| Microk8s.Shell.GetMicrok8sImageStatus | core/src/plugins/kubernetes/local/microk8s.ts:58-68 | issues only the image listing command; returns `ImageStatusResult` for the normalised id |
| Microk8s.Shell.IsMicrok8sRunningInMultipassVM | core/src/plugins/kubernetes/local/microk8s.ts:81-90 | issues only `multipass list --format json`; never throws, and answers `InMultipassVm` of the outcome |
| Microk8s.Shell.LoadImageToMicrok8s | core/src/plugins/kubernetes/local/microk8s.ts:92-144 | the trace grows by exactly the commands of `LoadImageRun`, and the method throws exactly its failure |
| Microk8s.Shell.LoadFromTempFile | core/src/plugins/kubernetes/local/microk8s.ts:105-138 | the callback given to `tmp.withFile` grows the trace by exactly the commands of `LoadAttempt` and lets exactly its error escape |
| Text.ContainsInfix | core/src/plugins/kubernetes/local/microk8s.ts:140 | a string built around a part contains that part (the basis for the load error naming the image) |
| Text.JoinSplitLines | core/src/plugins/kubernetes/local/microk8s.ts:67 | joining the pieces of `split("\n")` with newlines gives back the listing |
| Text.SplitJoinLines | core/src/plugins/kubernetes/local/microk8s.ts:67 | splitting newline-free lines joined with newlines gives back exactly those lines |
| Text.TrimTrailingSlashesRemovesOnlySlashes | core/src/plugins/kubernetes/local/microk8s.ts:115 | trimming drops only trailing '/' characters and leaves none at the end |
| Text.AfterLastSlashIsLongestSlashFreeSuffix | core/src/plugins/kubernetes/local/microk8s.ts:115 | the part after the last '/' is the longest suffix without '/' |
| Text.SplitLines | core/src/plugins/kubernetes/local/microk8s.ts:67 | `split("\n")` gives at least one piece, and no piece contains a newline |
| Text.Base | core/src/plugins/kubernetes/local/microk8s.ts:115 | the base name holds no '/' and is no longer than the path |
| Text.BaseIsLastComponent | core/src/plugins/kubernetes/local/microk8s.ts:115 | the base name has no '/'; for a path without a trailing '/' it is the path's last component |
| Process.RunSteps | core/src/plugins/kubernetes/local/microk8s.ts:105-138 | a run of awaited steps issues at most the steps; all of them when nothing is thrown, and at least one when something is |
| Process.RunStepsStopsAtFirstRejection | core/src/plugins/kubernetes/local/microk8s.ts:105-138 | awaited steps are issued in order as a prefix of the steps; all steps are issued when nothing is thrown; every issued step but the last resolved; a thrown error is that of the last issued step, which was rejected |
| Addons.MissingAddons | core/src/plugins/kubernetes/local/microk8s.ts:50 | every missing addon is a required addon that the status does not report as enabled, and there are no more of them than required addons |
| Addons.MissingAddonsCoverRequired | core/src/plugins/kubernetes/local/microk8s.ts:50 | every required addon is either reported as enabled or in the missing list |
| Addons.MissingAddonsMultiplicity | core/src/plugins/kubernetes/local/microk8s.ts:50 | an addon reported as enabled never appears in the missing list; any other addon appears exactly as often as it is required |
| Addons.MissingAddonsMembership | core/src/plugins/kubernetes/local/microk8s.ts:50 | an addon is missing if and only if it is required and `"<addon>: enabled"` is absent from the status |
| Addons.MissingAddonsInOrder | core/src/plugins/kubernetes/local/microk8s.ts:50 | the missing addons are a subsequence of the required ones, so their order is kept |
| Addons.NothingMissingIffAllEnabled | core/src/plugins/kubernetes/local/microk8s.ts:50-52 | the missing list is empty if and only if every required addon is reported as enabled |
| Addons.DecideAddons | core/src/plugins/kubernetes/local/microk8s.ts:26-52 | the permission branch is taken if and only if the status command was rejected with a permission message; the not-running branch carries the status text, which lacks the running marker; the enable branch comes from a running status and lists only required addons the status does not report as enabled |
| Addons.AddonCommands | core/src/plugins/kubernetes/local/microk8s.ts:22-56 | the status command comes first, and at most one command follows it |
| Addons.AddonsResult | core/src/plugins/kubernetes/local/microk8s.ts:22-56 | the call returns with the permission warning if and only if the status command was rejected for lack of permission; any other normal return comes from a running cluster and leaves every required addon either reported as enabled or in the reported list; a non-empty reported list means the enable command resolved; a thrown error is either the status RuntimeError, only when the status lacks the running marker, or the rejected enable command's error, only when some addon was missing |
| Addons.AllEnabledReturnsNormally | core/src/plugins/kubernetes/local/microk8s.ts:43-55 | a running cluster that reports every required addon as enabled returns normally, reporting no addon enabled |
| Addons.EnableRejectionPropagates | core/src/plugins/kubernetes/local/microk8s.ts:50-55 | on a running cluster with addons missing, the call throws if and only if the enable command is rejected, and it throws that command's error unwrapped; otherwise it reports exactly the missing addons as enabled |
| Addons.PermissionDeniedSkipsAddons | core/src/plugins/kubernetes/local/microk8s.ts:26-37 | a status rejection whose `all` output shows "permission denied" or "Insufficient permissions" returns normally with the warning and issues no enable |
| Addons.NotRunningThrowsWithoutEnable | core/src/plugins/kubernetes/local/microk8s.ts:43-48 | a status text without "microk8s is running" throws the status RuntimeError, which carries the status and the command result, and issues no enable |
| Addons.OtherStatusFailureThrows | core/src/plugins/kubernetes/local/microk8s.ts:24-48 | any other status rejection leaves the status empty and so always throws the status RuntimeError with status "" |
| Addons.EnableIssuedIffSomeAddonMissing | core/src/plugins/kubernetes/local/microk8s.ts:50-55 | on a running cluster an enable is issued if and only if some required addon is not reported as enabled, and its arguments are exactly the missing addons |
| Addons.ReconcileIsIdempotent | core/src/plugins/kubernetes/local/microk8s.ts:50-55 | if the cluster truthfully reports the first call's effect, a second call enables nothing, so two calls issue at most one enable |
| ImageStatus.WithRegistryDefaults | core/src/plugins/kubernetes/local/microk8s.ts:59-64 | a missing or empty host becomes "docker.io" and a missing or empty namespace becomes "library"; a present host or namespace is kept, and so are the repository and the tag |
| ImageStatus.RegistryDefaultsFixedPoints | core/src/plugins/kubernetes/local/microk8s.ts:60-64 | normalising changes an id if and only if it lacks a host or a namespace, and normalising twice is the same as normalising once |
| ImageStatus.ClusterImageId | core/src/plugins/kubernetes/local/microk8s.ts:59-64 | no contract of its own: the id looked up is the formatter applied to the parsed id after `WithRegistryDefaults`, whose contract gives the defaulting |
| ImageStatus.ClusterImageIdIsNormalised | core/src/plugins/kubernetes/local/microk8s.ts:59-64 | when the parser reads back what the formatter wrote, the cluster id is already normal, so computing it again from the cluster id changes nothing |
| ImageStatus.ImageListedIffOneOfTheLines | core/src/plugins/kubernetes/local/microk8s.ts:67 | for a listing of newline-free ids, one per line, an id is found if and only if it equals one of them |
| ImageStatus.ImageStatusResult | core/src/plugins/kubernetes/local/microk8s.ts:66-67 | a rejected listing is thrown as it is; `ready` means the id is a line of the listing, and an id that contains a newline is never ready |
| MultipassProbe.AnyNamed | core/src/plugins/kubernetes/local/microk8s.ts:86 | `some` holds if and only if some entry has the given name |
| MultipassProbe.OtherEntriesDoNotMatter | core/src/plugins/kubernetes/local/microk8s.ts:86 | entries with other names, before or after, do not change the probe's answer |
| MultipassProbe.InMultipassVm | core/src/plugins/kubernetes/local/microk8s.ts:81-90 | the answer is true if and only if the listing resolved, decoded, and has an entry named "microk8s-vm"; a rejected listing gives false |
| ImageLoad.ArchivePath | core/src/plugins/kubernetes/local/microk8s.ts:115-125 | on the host the import path is the temporary path unchanged; in the VM it is "/tmp/" followed by the temporary file's base name, with no further '/' |
| ImageLoad.VmArchiveKeepsFileName | core/src/plugins/kubernetes/local/microk8s.ts:121-125 | the in-VM file name is the last component of the temporary path |
| ImageLoad.ImportSteps | core/src/plugins/kubernetes/local/microk8s.ts:125-137 | the import uses the chosen path; in the VM the transfer to that path comes first and its removal comes last |
| ImageLoad.LoadFailure | core/src/plugins/kubernetes/local/microk8s.ts:139-143 | the wrapping error is a RuntimeError whose message contains the image id and the cause's message, and which carries the cause |
| ImageLoad.LoadAttempt | core/src/plugins/kubernetes/local/microk8s.ts:105-138 | the callback issues the save first; it stops right there, with an error, if and only if the save is rejected; the rest of its meaning is stated through `LoadImageRun`'s lemmas |
| ImageLoad.WrapFailure | core/src/plugins/kubernetes/local/microk8s.ts:139-143 | the catch block throws if and only if the callback did; what it throws is a RuntimeError that carries the callback's error and whose message names the image and contains that error's message |
| ImageLoad.LoadImageRun | core/src/plugins/kubernetes/local/microk8s.ts:92-144 | a load always issues the save first, and anything it throws is a RuntimeError whose message names the image |
| ImageLoad.LoadImageStopsAtFirstFailure | core/src/plugins/kubernetes/local/microk8s.ts:103-143 | a load issues a prefix of save, probe, [transfer], import, [rm]. It issues all of them when nothing is thrown. Otherwise it stops after the first rejected command (never the probe) and throws a RuntimeError that names the image and wraps that command's error |
| ImageLoad.LoadResolvesBeforeFailure | core/src/plugins/kubernetes/local/microk8s.ts:103-143 | every command a load issued before the one it stopped at resolved, the probe aside (whose rejection is not thrown); when nothing is thrown every command but the probe resolved, so a rejected save always throws |
| ImageLoad.LoadOnHost | core/src/plugins/kubernetes/local/microk8s.ts:105-132 | a successful load outside the VM issues exactly save, probe and import of the host path |
| ImageLoad.LoadInVm | core/src/plugins/kubernetes/local/microk8s.ts:105-137 | a successful load in the VM issues exactly save, probe, transfer to /tmp/<base>, import of /tmp/<base> and removal of /tmp/<base> |
| ImageLoad.VmCopyKeptWhenImportRejected | core/src/plugins/kubernetes/local/microk8s.ts:128-137 | when the import inside the VM is rejected, the load throws without removing the copy in the VM |

## Left out

- `tmp.withFile` is not modelled: neither the creation of the temporary archive nor its deletion on exit. The temporary path is a parameter of `LoadImageToMicrok8s`, and host-side cleanup is library behaviour that is not visible here.
- The in-VM copy on failure: the code removes the copy in the VM only after a successful import. A design that cleans up on every exit path would also remove it when the import fails. The model follows the code (`ImageLoad.VmCopyKeptWhenImportRejected`).
- `containerHelpers.dockerCli` is not part of this model. It is taken to issue `docker save -o <tmp> <image>` in the module's build path, and to reject when that command fails.
- `containerHelpers.parseImageId`, `containerHelpers.unparseImageId` and `JSON.parse` are not part of this model. They are function parameters; nothing is assumed about their results, and they are taken never to throw (see the next line). A listing entry whose `name` is not a string is taken to decode to a name other than "microk8s-vm".
- Microk8s.Shell.GetMicrok8sImageStatus: the model takes `parseImageId` and `unparseImageId` never to throw, because they are total function parameters. The source calls them before `exec`, so if one threw, the listing command would not be issued and that error would propagate. The contract does not cover that path.
- `path.parse(..).base` is modelled as a POSIX base name: trailing '/' characters are removed, then the part after the last '/' is taken. Windows separators are not modelled.
- Log output (`log.warn`, `log.info`, `chalk`, `deline`, `naturalList`) is not modelled as text. The warning that a normal return from `ConfigureMicrok8sAddons` stands for is recorded in its result (`PermissionWarning` with the addons, `Reconciled` with the addons enabled).
- Async scheduling and concurrent calls are not modelled: each call is one sequential flow of awaited commands.
- Real processes are not modelled: `microk8s`, `multipass` and `docker` are answered by the oracle `respond`.
- `core/test/unit/src/commands/logout.ts` is not part of this model. It tests the logout command, not microk8s.
