/** VM probe (`isMicrok8sRunningInMultipassVM`): microk8s runs inside a
    multipass VM exactly when `multipass list --format json` lists a machine
    called "microk8s-vm"; any failure to run or decode the listing means no VM. */
module MultipassProbe {
  import opened Wrappers
  import opened Process

  const MultipassVmName := "microk8s-vm"

  const MultipassListCommand := Command("multipass", ["list", "--format", "json"], None)

  /** One entry of the listing's `list` array. */
  datatype VmEntry = VmEntry(name: string, state: string, ipv4: seq<string>, release: string)

  /** Some entry of the listing carries the given name. */
  function AnyNamed(vms: seq<VmEntry>, name: string): (found: bool)
    ensures found <==> exists k :: 0 <= k < |vms| && vms[k].name == name
  {
    if |vms| == 0 then false
    else vms[0].name == name || AnyNamed(vms[1..], name)
  }

  /** Entries with other names neither add nor remove the VM, wherever they stand. */
  lemma OtherEntriesDoNotMatter(vms: seq<VmEntry>, before: seq<VmEntry>, after: seq<VmEntry>)
    requires forall k :: 0 <= k < |before| ==> before[k].name != MultipassVmName
    requires forall k :: 0 <= k < |after| ==> after[k].name != MultipassVmName
    ensures AnyNamed(before + vms + after, MultipassVmName) == AnyNamed(vms, MultipassVmName)
  {
    var all := before + vms + after;
    if AnyNamed(vms, MultipassVmName) {
      var k :| 0 <= k < |vms| && vms[k].name == MultipassVmName;
      assert all[|before| + k] == vms[k];
    }
  }

  /** The probe's answer, given the outcome of the listing command and the
      JSON decoder (`None` when the text is not JSON, has no `list` array, or
      has an entry that is not an object before any entry named after the VM,
      since reading that entry's name throws and the probe answers false). */
  function InMultipassVm(listing: ExecOutcome, decodeList: string -> Option<seq<VmEntry>>): (inVm: bool)
    ensures inVm <==>
            listing.Completed? && decodeList(listing.stdout).Some? &&
            exists k :: 0 <= k < |decodeList(listing.stdout).value| &&
                        decodeList(listing.stdout).value[k].name == MultipassVmName
    ensures listing.Rejected? ==> !inVm
  {
    match listing
    case Rejected(_, _) => false
    case Completed(stdout) =>
      match decodeList(stdout)
      case None => false
      case Some(vms) => AnyNamed(vms, MultipassVmName)
  }
}
