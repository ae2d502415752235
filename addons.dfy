/** Addon reconciliation (`configureMicrok8sAddons`): read `microk8s status`,
    give up quietly when the user lacks permission, fail when the cluster is
    not running, and enable the required addons the status does not report
    as enabled, with a single batched `microk8s enable`. */
module Addons {
  import opened Wrappers
  import opened Text
  import opened Process

  const StatusCommand := Command("microk8s", ["status"], None)

  function EnableCommand(missing: seq<string>): Command
  {
    Command("microk8s", ["enable"] + missing, None)
  }

  const RunningMarker := "microk8s is running"
  const StatusUnavailableMessage := "Unable to get microk8s status. Is the cluster installed and running?"

  /** The status text reports `addon` as enabled. */
  predicate Enabled(status: string, addon: string)
  {
    Contains(status, addon + ": enabled")
  }

  /** The `all` output of a rejected status command shows a permission problem. */
  predicate PermissionDenied(all: Option<string>)
  {
    all.Some? && (Contains(all.value, "permission denied") || Contains(all.value, "Insufficient permissions"))
  }

  /** `status` after the try/catch: the stdout when the command resolved, "" when it was rejected. */
  function StatusText(statusOutcome: ExecOutcome): string
  {
    if statusOutcome.Completed? then statusOutcome.stdout else ""
  }

  /** The required addons the status does not report as enabled, in their order. */
  function MissingAddons(addons: seq<string>, status: string): (missing: seq<string>)
    ensures |missing| <= |addons|
    ensures forall k :: 0 <= k < |missing| ==> missing[k] in addons && !Enabled(status, missing[k])
  {
    if |addons| == 0 then []
    else (if Enabled(status, addons[0]) then [] else [addons[0]]) + MissingAddons(addons[1..], status)
  }

  /** Each addon occurs in the missing list as often as it is required,
      unless the status reports it enabled, in which case it does not occur. */
  lemma {:induction false} MissingAddonsMultiplicity(addons: seq<string>, status: string, a: string)
    ensures multiset(MissingAddons(addons, status))[a] ==
            if Enabled(status, a) then 0 else multiset(addons)[a]
  {
    if |addons| > 0 {
      MissingAddonsMultiplicity(addons[1..], status, a);
      assert addons == [addons[0]] + addons[1..];
      assert multiset(addons) == multiset([addons[0]]) + multiset(addons[1..]);
    }
  }

  /** An addon is missing exactly when it is required and not reported enabled. */
  lemma {:induction false} MissingAddonsMembership(addons: seq<string>, status: string, a: string)
    ensures a in MissingAddons(addons, status) <==> a in addons && !Enabled(status, a)
  {
    MissingAddonsMultiplicity(addons, status, a);
    assert a in MissingAddons(addons, status) <==> multiset(MissingAddons(addons, status))[a] > 0;
    assert a in addons <==> multiset(addons)[a] > 0;
  }

  /** Every required addon is either reported enabled or in the missing list. */
  lemma MissingAddonsCoverRequired(addons: seq<string>, status: string)
    ensures forall a :: a in addons ==> a in MissingAddons(addons, status) || Enabled(status, a)
  {
    forall a | a in addons
      ensures a in MissingAddons(addons, status) || Enabled(status, a)
    {
      MissingAddonsMembership(addons, status, a);
    }
  }

  /** The missing addons keep the order in which they were required. */
  lemma {:induction false} MissingAddonsInOrder(addons: seq<string>, status: string)
    ensures IsSubsequence(MissingAddons(addons, status), addons)
  {
    if |addons| > 0 {
      var rest := MissingAddons(addons[1..], status);
      MissingAddonsInOrder(addons[1..], status);
      if Enabled(status, addons[0]) {
        assert MissingAddons(addons, status) == rest;
      } else {
        assert MissingAddons(addons, status) == [addons[0]] + rest;
        assert ([addons[0]] + rest)[1..] == rest;
      }
    }
  }

  /** Nothing is missing exactly when every required addon is reported enabled. */
  lemma {:induction false} NothingMissingIffAllEnabled(addons: seq<string>, status: string)
    ensures |MissingAddons(addons, status)| == 0 <==> forall a :: a in addons ==> Enabled(status, a)
  {
    var missing := MissingAddons(addons, status);
    forall a {
      MissingAddonsMembership(addons, status, a);
    }
    if |missing| > 0 {
      assert missing[0] in missing;
    }
  }

  /** The branch `configureMicrok8sAddons` takes once the status command has answered. */
  datatype AddonsDecision =
    | WarnNoPermission
    | ClusterNotRunning(status: string)
    | EnableMissing(missing: seq<string>)

  function DecideAddons(addons: seq<string>, statusOutcome: ExecOutcome): (d: AddonsDecision)
    ensures d.WarnNoPermission? <==> statusOutcome.Rejected? && PermissionDenied(statusOutcome.all)
    ensures d.ClusterNotRunning? ==> d.status == StatusText(statusOutcome) && !Contains(d.status, RunningMarker)
    ensures d.EnableMissing? ==>
              Contains(StatusText(statusOutcome), RunningMarker) &&
              forall k :: 0 <= k < |d.missing| ==>
                d.missing[k] in addons && !Enabled(StatusText(statusOutcome), d.missing[k])
  {
    if statusOutcome.Rejected? && PermissionDenied(statusOutcome.all) then WarnNoPermission
    else
      var status := StatusText(statusOutcome);
      if !Contains(status, RunningMarker) then ClusterNotRunning(status)
      else EnableMissing(MissingAddons(addons, status))
  }

  /** What a normal return stands for: the permission warning (naming the
      addons to enable by hand), or the addons that were enabled, if any. */
  datatype AddonsReport = PermissionWarning(addons: seq<string>) | Reconciled(enabled: seq<string>)

  /** The commands `configureMicrok8sAddons` issues. */
  function AddonCommands(addons: seq<string>, statusOutcome: ExecOutcome): (commands: seq<Command>)
    ensures 1 <= |commands| <= 2 && commands[0] == StatusCommand
  {
    match DecideAddons(addons, statusOutcome)
    case EnableMissing(missing) =>
      if |missing| > 0 then [StatusCommand, EnableCommand(missing)] else [StatusCommand]
    case _ => [StatusCommand]
  }

  /** What `configureMicrok8sAddons` returns or throws, given the status
      outcome and the outcome the enable command would have. */
  function AddonsResult(addons: seq<string>, statusOutcome: ExecOutcome, enableOutcome: ExecOutcome): (r: Result<AddonsReport, Error>)
    ensures r.Ok? && r.value.PermissionWarning? <==> statusOutcome.Rejected? && PermissionDenied(statusOutcome.all)
    ensures r.Ok? && r.value.Reconciled? ==>
              Contains(StatusText(statusOutcome), RunningMarker) &&
              forall a :: a in addons ==> a in r.value.enabled || Enabled(StatusText(statusOutcome), a)
    ensures r.Ok? && r.value.Reconciled? && |r.value.enabled| > 0 ==> enableOutcome.Completed?
    ensures r.Err? ==>
              (r.error.RuntimeError? && r.error.message == StatusUnavailableMessage) ||
              (r.error.ExecFailed? && enableOutcome.Rejected? && r.error.message == enableOutcome.message)
    ensures r.Err? && r.error.RuntimeError? ==> !Contains(StatusText(statusOutcome), RunningMarker)
    ensures r.Err? && r.error.ExecFailed? ==> |MissingAddons(addons, StatusText(statusOutcome))| > 0
  {
    MissingAddonsCoverRequired(addons, StatusText(statusOutcome));
    match DecideAddons(addons, statusOutcome)
    case WarnNoPermission => Ok(PermissionWarning(addons))
    case ClusterNotRunning(status) =>
      Err(RuntimeError(StatusUnavailableMessage, StatusContext(status, statusOutcome)))
    case EnableMissing(missing) =>
      if |missing| > 0 && enableOutcome.Rejected? then Err(Failure(EnableCommand(missing), enableOutcome))
      else Ok(Reconciled(missing))
  }

  /** On a running cluster with addons missing, the call throws exactly when
      the enable command is rejected, and then throws that command's error
      unwrapped; otherwise it reports exactly the missing addons as enabled. */
  lemma EnableRejectionPropagates(addons: seq<string>, status: string, enableOutcome: ExecOutcome)
    requires Contains(status, RunningMarker) && |MissingAddons(addons, status)| > 0
    ensures var r := AddonsResult(addons, Completed(status), enableOutcome);
            (r.Err? <==> enableOutcome.Rejected?) &&
            (r.Err? ==> r.error == Failure(EnableCommand(MissingAddons(addons, status)), enableOutcome)) &&
            (r.Ok? ==> r == Ok(Reconciled(MissingAddons(addons, status))))
  {
  }

  /** A running cluster that already reports every required addon enabled
      returns normally, enabling nothing. */
  lemma AllEnabledReturnsNormally(addons: seq<string>, status: string, enableOutcome: ExecOutcome)
    requires Contains(status, RunningMarker) && forall a :: a in addons ==> Enabled(status, a)
    ensures AddonsResult(addons, Completed(status), enableOutcome) == Ok(Reconciled([]))
  {
    NothingMissingIffAllEnabled(addons, status);
  }

  /** A status command rejected for lack of permission ends the call normally, with a warning and no enable. */
  lemma PermissionDeniedSkipsAddons(addons: seq<string>, statusOutcome: ExecOutcome, enableOutcome: ExecOutcome)
    requires statusOutcome.Rejected? && PermissionDenied(statusOutcome.all)
    ensures AddonCommands(addons, statusOutcome) == [StatusCommand]
    ensures AddonsResult(addons, statusOutcome, enableOutcome) == Ok(PermissionWarning(addons))
  {
  }

  /** A status without the running marker throws the status error and enables nothing. */
  lemma NotRunningThrowsWithoutEnable(addons: seq<string>, statusOutcome: ExecOutcome, enableOutcome: ExecOutcome)
    requires !(statusOutcome.Rejected? && PermissionDenied(statusOutcome.all))
    requires !Contains(StatusText(statusOutcome), RunningMarker)
    ensures AddonCommands(addons, statusOutcome) == [StatusCommand]
    ensures AddonsResult(addons, statusOutcome, enableOutcome) ==
            Err(RuntimeError(StatusUnavailableMessage, StatusContext(StatusText(statusOutcome), statusOutcome)))
  {
  }

  /** Any other rejection of the status command leaves the status empty, so it always ends in the status error. */
  lemma OtherStatusFailureThrows(addons: seq<string>, statusOutcome: ExecOutcome, enableOutcome: ExecOutcome)
    requires statusOutcome.Rejected? && !PermissionDenied(statusOutcome.all)
    ensures AddonCommands(addons, statusOutcome) == [StatusCommand]
    ensures AddonsResult(addons, statusOutcome, enableOutcome) ==
            Err(RuntimeError(StatusUnavailableMessage, StatusContext("", statusOutcome)))
  {
    assert !Contains("", RunningMarker);
  }

  /** On a running cluster an enable command is issued exactly when some
      required addon is not reported enabled, and it names exactly the
      missing addons, in their required order. */
  lemma EnableIssuedIffSomeAddonMissing(addons: seq<string>, status: string)
    requires Contains(status, RunningMarker)
    ensures var commands := AddonCommands(addons, Completed(status));
            (|commands| == 2 <==> exists a :: a in addons && !Enabled(status, a)) &&
            (|commands| == 2 ==> commands[1] == EnableCommand(MissingAddons(addons, status)))
  {
    NothingMissingIffAllEnabled(addons, status);
  }

  /** The cluster answers truthfully after a first call: it is running and
      reports enabled every addon it reported before and every addon the first
      call enabled. */
  predicate TruthfulAfter(addons: seq<string>, firstStatus: ExecOutcome, secondStatus: ExecOutcome)
  {
    DecideAddons(addons, firstStatus).EnableMissing? &&
    secondStatus.Completed? && Contains(secondStatus.stdout, RunningMarker) &&
    forall a :: a in addons ==>
      (Enabled(StatusText(firstStatus), a) || a in DecideAddons(addons, firstStatus).missing) ==>
      Enabled(secondStatus.stdout, a)
  }

  /** Idempotence: against a truthful cluster a second call enables nothing,
      so two calls issue at most one enable command between them. */
  lemma ReconcileIsIdempotent(addons: seq<string>, firstStatus: ExecOutcome, secondStatus: ExecOutcome)
    requires TruthfulAfter(addons, firstStatus, secondStatus)
    ensures AddonCommands(addons, secondStatus) == [StatusCommand]
    ensures |AddonCommands(addons, firstStatus)| + |AddonCommands(addons, secondStatus)| <= 3
  {
    var first := StatusText(firstStatus);
    forall a | a in addons
      ensures Enabled(secondStatus.stdout, a)
    {
      MissingAddonsMembership(addons, first, a);
    }
    NothingMissingIffAllEnabled(addons, secondStatus.stdout);
  }
}
