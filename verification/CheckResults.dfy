/** Check results, their order of severity, and what they mean for the cluster. */
module CheckResults {
  import opened Platform

  datatype CheckStatus =
    | NoStatus | PassStatus | ConnectionFailed | OpenshiftAPIError | ExistingDriverFound | DeprecatedVCenter
    | DeprecatedHWVersion | DeprecatedESXIVersion | VCenterAPIError | GenericError
    | BlockVolumeLimitError | NonVSphereNode

  function Text(s: CheckStatus): string {
    match s
    case NoStatus => ""
    case PassStatus => "pass"
    case ConnectionFailed => "vsphere_connection_failed"
    case OpenshiftAPIError => "openshift_api_error"
    case ExistingDriverFound => "existing_driver_found"
    case DeprecatedVCenter => "check_deprecated_vcenter"
    case DeprecatedHWVersion => "check_deprecated_hw_version"
    case DeprecatedESXIVersion => "check_deprecated_esxi_version"
    case VCenterAPIError => "vcenter_api_error"
    case GenericError => "generic_error"
    case BlockVolumeLimitError => "block_volume_limit_error"
    case NonVSphereNode => "non_vsphere_node"
  }

  datatype Action = Pass | BlockUpgrade | BlockUpgradeDriverInstall | BlockUpgradeOrDegrade | Degrade

  function Rank(a: Action): nat {
    match a
    case Pass => 0
    case BlockUpgrade => 1
    case BlockUpgradeDriverInstall => 2
    case BlockUpgradeOrDegrade => 3
    case Degrade => 4
  }

  datatype CheckResult = CheckResult(error: Option<string>, status: CheckStatus, action: Action, reason: string)

  /** Everything above Pass carries an error; rebuilding a degraded result from a nil error would panic. */
  predicate Sound(r: CheckResult) { r.action != Pass ==> r.error.Some? }

  function PassResult(): (r: CheckResult)
    ensures Sound(r)
  {
    CheckResult(None, PassStatus, Pass, "")
  }

  function ExistingDriverResult(reason: string): (r: CheckResult)
    ensures Sound(r)
  {
    CheckResult(Some(reason), ExistingDriverFound, BlockUpgradeDriverInstall, reason)
  }

  function DeprecatedEnvironment(status: CheckStatus, reason: string): (r: CheckResult)
    ensures Sound(r)
  {
    CheckResult(Some(reason), status, BlockUpgradeOrDegrade, reason)
  }

  function DegradedError(status: CheckStatus, reason: string): (r: CheckResult)
    ensures Sound(r)
  {
    CheckResult(Some(reason), status, Degrade, reason)
  }

  function UnupgradeableError(status: CheckStatus, reason: string): (r: CheckResult)
    ensures Sound(r)
  {
    CheckResult(Some(reason), status, BlockUpgrade, reason)
  }

  function GenericVCenterAPIError(reason: string): (r: CheckResult)
    ensures Sound(r)
  {
    CheckResult(Some(reason), VCenterAPIError, BlockUpgradeOrDegrade, reason)
  }

  /** Looking up the CSIDriver object: found with or without our annotation, absent, or the API failed. */
  datatype DriverLookup = Found(annotated: bool) | Missing | LookupFailed(message: string)

  datatype ClusterStatus = AllGood | InstallBlocked | UpgradesBlocked | UpgradesUnknown | Degraded

  datatype Assessment = Assessment(status: ClusterStatus, result: CheckResult)

  function CheckClusterStatus(r: CheckResult, driver: DriverLookup): (a: Assessment)
    requires Sound(r)
    ensures Sound(a.result)
    ensures a.status == Degraded <==> a.result.action == Degrade
  {
    match r.action
    case Degrade => Assessment(Degraded, r)
    case BlockUpgradeOrDegrade => (
      match driver
      case LookupFailed(message) =>
        Assessment(Degraded, DegradedError(OpenshiftAPIError,
          "vsphere driver install failed with " + r.reason + ", unable to verify CSIDriver status: " + message))
      case Found(true) => Assessment(Degraded, DegradedError(r.status, r.error.value))
      case _ => Assessment(if r.status == ConnectionFailed then UpgradesUnknown else UpgradesBlocked, r))
    case BlockUpgrade => Assessment(UpgradesBlocked, r)
    case BlockUpgradeDriverInstall => Assessment(InstallBlocked, r)
    case Pass => Assessment(AllGood, r)
  }

  /** The statuses after which installation does not go on. */
  predicate Stops(s: ClusterStatus) { s == Degraded || s == UpgradesUnknown || s == InstallBlocked }

  /** The cases in which a result blocks the install. */
  predicate BlocksInstall(r: CheckResult, driver: DriverLookup) {
    || r.action == Degrade
    || r.action == BlockUpgradeDriverInstall
    || (r.action == BlockUpgradeOrDegrade
        && (driver.LookupFailed? || driver == Found(true) || r.status == ConnectionFailed))
  }

  lemma BlocksInstallExactlyWhen(r: CheckResult, driver: DriverLookup)
    requires Sound(r)
    ensures Stops(CheckClusterStatus(r, driver).status) <==> BlocksInstall(r, driver)
  {}

  /** The results the checks and the login construct, by function or as literals. */
  ghost predicate Constructed(r: CheckResult) {
    || r == PassResult()
    || (exists reason :: r == ExistingDriverResult(reason))
    || (exists error, reason :: r == CheckResult(Some(error), OpenshiftAPIError, Degrade, reason))
    || (exists error, reason :: r == CheckResult(Some(error), ConnectionFailed, BlockUpgradeOrDegrade, reason))
    || exists status, reason ::
         || r == DeprecatedEnvironment(status, reason) || r == DegradedError(status, reason)
         || r == UnupgradeableError(status, reason) || r == GenericVCenterAPIError(reason)
  }

  /** So every action above Pass carries an error, and rebuilding a degraded result is defined. */
  lemma ConstructedIsSound(r: CheckResult)
    requires Constructed(r)
    ensures Sound(r)
  {}

  // ---------- folding ----------

  /** `worst` is the last result of the highest severity; a list of passes gives the initial value. */
  ghost predicate IsWorst(results: seq<CheckResult>, initial: CheckResult, worst: CheckResult) {
    || (results == [] && worst == initial)
    || exists k :: IsLastMaximum(results, k) && worst == results[k]
  }

  ghost predicate IsLastMaximum(results: seq<CheckResult>, k: int) {
    && 0 <= k < |results|
    && (forall i :: 0 <= i < |results| ==> Rank(results[i].action) <= Rank(results[k].action))
    && (forall i :: k < i < |results| ==> Rank(results[i].action) < Rank(results[k].action))
  }

  lemma LastMaximumStays(results: seq<CheckResult>, k: int)
    requires results != [] && IsLastMaximum(results[..|results| - 1], k)
    ensures IsLastMaximum(results, if Rank(results[|results| - 1].action) >= Rank(results[k].action)
                                   then |results| - 1 else k)
  {
    var front := results[..|results| - 1];
    assert forall i :: 0 <= i < |front| ==> front[i] == results[i];
  }

  function Worse(acc: CheckResult, r: CheckResult): CheckResult {
    if Rank(r.action) >= Rank(acc.action) then r else acc
  }

  function Worst(results: seq<CheckResult>): CheckResult {
    if results == [] then CheckResult(None, NoStatus, Pass, "")
    else Worse(Worst(results[..|results| - 1]), results[|results| - 1])
  }

  lemma {:induction false} WorstIsLastMaximum(results: seq<CheckResult>)
    ensures IsWorst(results, CheckResult(None, NoStatus, Pass, ""), Worst(results))
    ensures (forall i :: 0 <= i < |results| ==> Sound(results[i])) ==> Sound(Worst(results))
  {
    if results != [] {
      var front, last := results[..|results| - 1], results[|results| - 1];
      WorstIsLastMaximum(front);
      if front != [] {
        var k :| IsLastMaximum(front, k) && Worst(front) == front[k];
        LastMaximumStays(results, k);
      } else {
        assert IsLastMaximum(results, 0);
      }
    }
  }

  /**
   Nothing degrades, and the last "block upgrade or degrade" result is about something else than the
   connection, on a cluster whose CSIDriver object is known not to be ours.
   */
  ghost predicate Overruled(results: seq<CheckResult>, driver: DriverLookup) {
    && !driver.LookupFailed? && driver != Found(true)
    && (forall i :: 0 <= i < |results| ==> results[i].action != Degrade)
    && exists k :: LastWarning(results, k) && results[k].status != ConnectionFailed
  }

  /** Result `k` is the last "block upgrade or degrade" result. */
  ghost predicate LastWarning(results: seq<CheckResult>, k: int) {
    && 0 <= k < |results| && results[k].action == BlockUpgradeOrDegrade
    && forall i :: k < i < |results| ==> results[i].action != BlockUpgradeOrDegrade
  }

  /** The order of severity, from the inputs: each action prevails unless a more severe one is among the results. */
  lemma WorstActionIs(results: seq<CheckResult>)
    ensures var has := set r | r in results :: r.action;
            Worst(results).action
            == if Degrade in has then Degrade else if BlockUpgradeOrDegrade in has then BlockUpgradeOrDegrade
               else if BlockUpgradeDriverInstall in has then BlockUpgradeDriverInstall
               else if BlockUpgrade in has then BlockUpgrade else Pass
  {
    WorstIsLastMaximum(results);
    if results != [] {
      var k :| IsLastMaximum(results, k) && Worst(results) == results[k];
      assert results[k] in results;
      forall r | r in results ensures Rank(r.action) <= Rank(results[k].action) {
        var i :| 0 <= i < |results| && results[i] == r;
      }
    }
  }

  /** Read off the last result of the highest severity. */
  lemma OverruledAt(results: seq<CheckResult>, driver: DriverLookup, k: int)
    requires IsLastMaximum(results, k)
    ensures Overruled(results, driver) <==>
              && results[k].action == BlockUpgradeOrDegrade && results[k].status != ConnectionFailed
              && !driver.LookupFailed? && driver != Found(true)
  {
    if results[k].action == BlockUpgradeOrDegrade { assert LastWarning(results, k); }
    if Overruled(results, driver) {
      var o :| LastWarning(results, o) && results[o].status != ConnectionFailed;
      assert Rank(results[o].action) <= Rank(results[k].action);
    }
  }

  /**
   The severity order is not the order of effect: a check that asks to block the install is overruled
   exactly when a more severe result ends in blocking upgrades only.
   */
  lemma InstallBlockOverruledExactlyWhen(results: seq<CheckResult>, driver: DriverLookup)
    requires forall i :: 0 <= i < |results| ==> Sound(results[i])
    requires exists i :: 0 <= i < |results| && results[i].action == BlockUpgradeDriverInstall
    ensures Sound(Worst(results))
    ensures !Stops(CheckClusterStatus(Worst(results), driver).status) <==> Overruled(results, driver)
  {
    WorstIsLastMaximum(results);
    var k :| IsLastMaximum(results, k) && Worst(results) == results[k];
    var b :| 0 <= b < |results| && results[b].action == BlockUpgradeDriverInstall;
    assert Rank(results[b].action) <= Rank(results[k].action);
    OverruledAt(results, driver, k);
    BlocksInstallExactlyWhen(results[k], driver);
  }

  /**
   An unsupported driver alone blocks the install; with a virtual machine of an old hardware version besides,
   it no longer does, and only upgrades are blocked.
   */
  lemma OldHardwareUnblocksInstall(driver: string, machine: string)
    ensures var existing, aged := ExistingDriverResult(driver), DeprecatedEnvironment(DeprecatedHWVersion, machine);
            && Worst([existing]) == existing && CheckClusterStatus(existing, Found(false)).status == InstallBlocked
            && Worst([existing, aged]) == aged && CheckClusterStatus(aged, Found(false)).status == UpgradesBlocked
  {
    var existing, aged := ExistingDriverResult(driver), DeprecatedEnvironment(DeprecatedHWVersion, machine);
    assert [existing, aged][..1] == [existing] && [existing][..0] == [];
    assert Worst([existing]) == Worse(Worst([]), existing);
  }

  // ---------- the existing-driver check ----------

  const DRIVER_NAME := "csi.vsphere.vmware.com"

  /** The drivers registered on each CSINode; None when listing failed. */
  method CheckForCSINode(nodes: Option<seq<seq<string>>>) returns (r: seq<CheckResult>)
    ensures |r| <= 1 && forall x :: x in r ==> Sound(x)
    ensures nodes.None? <==> r != [] && r[0].action == Degrade
    ensures nodes.Some? ==>
              (r != [] <==> exists n :: n in nodes.value && DRIVER_NAME in n)
              && (r != [] ==> r[0].action == BlockUpgradeDriverInstall)
  {
    if nodes.None? { return [DegradedError(OpenshiftAPIError, "failed to list csi node objects")]; }
    for i := 0 to |nodes.value|
      invariant forall k :: 0 <= k < i ==> DRIVER_NAME !in nodes.value[k]
    {
      for j := 0 to |nodes.value[i]|
        invariant DRIVER_NAME !in nodes.value[i][..j]
      {
        if nodes.value[i][j] == DRIVER_NAME {
          assert nodes.value[i] in nodes.value;
          return [ExistingDriverResult("found existing unsupported driver")];
        }
        assert nodes.value[i][..j + 1] == nodes.value[i][..j] + [nodes.value[i][j]];
      }
      assert nodes.value[i][..|nodes.value[i]|] == nodes.value[i];
    }
    r := [];
  }

  /** A driver object that is not ours, or no object but a node that lists the driver. */
  predicate Unsupported(driver: DriverLookup, nodes: Option<seq<seq<string>>>) {
    driver == Found(false) || (driver.Missing? && nodes.Some? && exists n :: n in nodes.value && DRIVER_NAME in n)
  }

  /** What the check reports: one result at most, which degrades, blocks the install, or is not there at all. */
  predicate ExistingDriverVerdict(driver: DriverLookup, nodes: Option<seq<seq<string>>>, r: seq<CheckResult>) {
    && |r| <= 1 && (forall x :: x in r ==> Sound(x))
    && (r == [] <==> driver == Found(true) || (driver.Missing? && nodes.Some? && !Unsupported(driver, nodes)))
    && (Unsupported(driver, nodes) <==> r != [] && r[0].action == BlockUpgradeDriverInstall)
    && (driver.LookupFailed? || (driver.Missing? && nodes.None?) <==> r != [] && r[0].action == Degrade)
  }

  method CheckExistingDriver(driver: DriverLookup, nodes: Option<seq<seq<string>>>) returns (r: seq<CheckResult>)
    ensures ExistingDriverVerdict(driver, nodes, r)
  {
    match driver {
      case LookupFailed(message) =>
        r := [DegradedError(OpenshiftAPIError, "failed to check for existing csiDriver: " + message)];
      case Missing => r := CheckForCSINode(nodes);
      case Found(annotated) =>
        r := if annotated then [] else [ExistingDriverResult("found existing unsupported driver")];
    }
  }
}
