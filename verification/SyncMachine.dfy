/**
 One sync of the vSphere controller as a transition of process and cluster state.  Everything the
 controller cannot decide itself (API outcomes, lookups, check results, clock readings) is an input.
 */
module SyncMachine {
  import Backoff
  import opened Platform
  import opened CheckResults
  import opened EnvironmentChecker
  import opened Conditions

  datatype Management = Managed | Unmanaged | RemovedState | OtherState

  /** The controller's own fields. */
  datatype Process = Process(started: bool, management: Option<Management>, connected: bool, checker: Checker)

  /**
   Process, stored conditions, queued wake-ups and the clock, with three history variables:
   whether this process was ever Managed, how often it started the operands, and whether the stored
   check-degraded condition was last written as True for a failed login.
   */
  datatype World = World(
    process: Process, conditions: seq<Condition>, wakeups: seq<int>, clock: int,
    everManaged: bool, starts: nat, loginDegraded: bool)

  /** Preparing a connection, the SOAP login and the REST login of one vCenter. */
  datatype VCenterLogin = VCenterLogin(prepared: bool, soap: bool, rest: bool)

  datatype SyncInput = SyncInput(
    stateRead: bool, infraRead: bool, onVSphere: bool, management: Management,
    driverConfigRead: bool, driverAtStart: DriverLookup, cloudConfigLoaded: bool,
    vCenters: seq<VCenterLogin>, driverAtLogin: DriverLookup, loginWrite: bool,
    secretApplied: bool,
    resetAt: int, check: CheckCall, scheduledAt: int, driverAtCheck: DriverLookup, checkWrite: bool, finalWrite: bool,
    storageSynced: bool,
    assetsDeleted: bool, storageClassDeleted: bool, removalWrite: bool)

  /** The clock strictly advances, and every check honours its contract. */
  ghost predicate Plausible(clock: int, i: SyncInput) {
    && clock < i.resetAt < i.check.gate <= i.check.started <= i.scheduledAt
    && forall k :: 0 <= k < |i.check.results| ==> Sound(i.check.results[k])
  }

  /** How a sync ended: the error flag, and what else it did. */
  datatype Ending = Exited | Ended(failed: bool, removal: bool, storageSync: bool)

  function Fresh(now: int): Process { Process(false, None, false, NewChecker(now)) }

  // ---------- pieces ----------

  function LoginResult(vs: seq<VCenterLogin>): (r: CheckResult)
    ensures Sound(r)
    ensures r.action == Pass <==> forall k :: 0 <= k < |vs| ==> vs[k].prepared && vs[k].soap && vs[k].rest
  {
    if exists k :: 0 <= k < |vs| && !vs[k].prepared then DegradedError(OpenshiftAPIError, "cannot prepare connection")
    else if exists k :: 0 <= k < |vs| && !(vs[k].soap && vs[k].rest) then
      CheckResult(Some("login failed"), ConnectionFailed, BlockUpgradeOrDegrade, "Failed to connect to vSphere")
    else PassResult()
  }

  /** `updateConditions` as one atomic status write. */
  function UpdatedConditions(cs: seq<Condition>, r: CheckResult, upgrade: Status,
                             started: bool, block: bool): seq<Condition> {
    var degraded := if r.action == Degrade then Condition(CHECK_DEGRADED, ConditionTrue, Text(r.status), r.reason)
                    else Condition(CHECK_DEGRADED, ConditionFalse, "", "");
    var cs1 := Set(cs, degraded);
    var cs2 := if !started && block then Set(cs1, Condition(DISABLED, ConditionTrue, "", r.reason))
               else Remove(cs1, DISABLED);
    Set(Remove(cs2, AVAILABLE), Condition(UPGRADEABLE, upgrade, Text(r.status), r.reason))
  }

  function Write(w: World, r: CheckResult, upgrade: Status, block: bool, ok: bool, login: bool): World {
    if ok then w.(conditions := UpdatedConditions(w.conditions, r, upgrade, w.process.started, block),
                  loginDegraded := login && r.action == Degrade)
    else w
  }

  datatype Gate = Gate(world: World, failed: bool, blockInstall: bool, blockUpgrade: bool)

  function BlockUpgradeOrDegradeCluster(w: World, r: CheckResult, driver: DriverLookup, ok: bool, login: bool): Gate
    requires Sound(r)
  {
    var a := CheckClusterStatus(r, driver);
    match a.status
    case Degraded => Gate(Write(w, a.result, ConditionFalse, true, ok, login), !ok, true, false)
    case UpgradesUnknown => Gate(Write(w, a.result, ConditionUnknown, true, ok, login), !ok, true, false)
    case UpgradesBlocked => Gate(Write(w, a.result, ConditionFalse, false, ok, login), !ok, false, true)
    case InstallBlocked => Gate(Write(w, a.result, ConditionFalse, true, ok, login), !ok, true, true)
    case AllGood => Gate(w, false, false, false)
  }

  function Start(w: World): World { w.(process := w.process.(started := true), starts := w.starts + 1) }

  datatype Installed = Installed(world: World, failed: bool, block: bool)

  /** What follows an executed check. */
  function Conclude(w: World, i: SyncInput, result: CheckResult, upgradeBlocked: bool): Installed
    requires Sound(result)
  {
    var gate := BlockUpgradeOrDegradeCluster(w, result, i.driverAtCheck, i.checkWrite, false);
    if gate.failed || gate.blockInstall then Installed(gate.world, gate.failed, gate.blockInstall)
    else
      var w' := if gate.world.process.started then gate.world else Start(gate.world);
      var upgrade := if upgradeBlocked || gate.blockUpgrade then ConditionFalse else ConditionTrue;
      Installed(Write(w', result, upgrade, false, i.finalWrite, false), !i.finalWrite, false)
  }

  /** The state in which an executed check is acted upon: the checker moved on and a re-sync is queued. */
  function Checked(w: World, i: SyncInput, delay: int): World {
    w.(process := w.process.(checker := AfterCheck(w.process.checker, i.check).0),
       wakeups := w.wakeups + [i.scheduledAt + delay])
  }

  function CheckAndConclude(w: World, i: SyncInput, upgradeBlocked: bool): Installed
    requires forall k :: 0 <= k < |i.check.results| ==> Sound(i.check.results[k])
  {
    match AfterCheck(w.process.checker, i.check).1
    case NotRun => Installed(w, false, false)
    case Ran(delay, result) =>
      WorstIsLastMaximum(i.check.results);
      Conclude(Checked(w, i, delay), i, result, upgradeBlocked)
  }

  function InstallCSIDriver(w: World, i: SyncInput, connection: CheckResult): Installed
    requires Sound(connection) && forall k :: 0 <= k < |i.check.results| ==> Sound(i.check.results[k])
  {
    var gate := BlockUpgradeOrDegradeCluster(w, connection, i.driverAtLogin, i.loginWrite, true);
    if gate.failed || gate.blockInstall then Installed(gate.world, gate.failed, gate.blockInstall)
    else if !i.secretApplied then Installed(gate.world, true, false)
    else CheckAndConclude(gate.world, i, gate.blockUpgrade)
  }

  /** After the driver lookup of a Managed sync. */
  function Seen(w: World, i: SyncInput): World {
    var w1 := w.(process := w.process.(management := Some(Managed)), everManaged := true);
    if i.driverConfigRead && i.driverAtStart == Found(true) && !w.process.started then Start(w1) else w1
  }

  /** The reset of the backoff and the new connection status. */
  function Connected(w: World, snapshot: seq<Condition>, i: SyncInput, connection: CheckResult): World {
    var c := w.process.checker;
    var reset := connection.error.None? && AnyError(snapshot) && !w.process.connected;
    w.(process := w.process.(
         checker := if reset then Checker(Backoff.Default(CAP), i.resetAt, c.lastCheck) else c,
         connected := connection.error.None?))
  }

  function RemoveOperands(w: World, i: SyncInput): (World, Ending) {
    if !i.assetsDeleted || !i.storageClassDeleted then (w, Ended(true, true, false))
    else if !i.removalWrite then (w, Ended(true, true, false))
    else (w.(conditions := Removed(w.conditions, w.conditions), loginDegraded := false), Ended(false, true, false))
  }

  /** Whether a sync gets past loading the cloud configuration. */
  predicate ReachesLogin(i: SyncInput) {
    && i.stateRead && i.infraRead && i.onVSphere && i.management == Managed
    && i.driverConfigRead && !i.driverAtStart.LookupFailed? && i.cloudConfigLoaded
  }

  function AtInstall(w: World, i: SyncInput): World {
    Connected(Seen(w, i), w.conditions, i, LoginResult(i.vCenters))
  }

  /** The end of a sync that logged in, from the state in which the connection result is acted upon. */
  function Finish(w: World, i: SyncInput, connection: CheckResult): (World, Ending)
    requires Sound(connection) && forall k :: 0 <= k < |i.check.results| ==> Sound(i.check.results[k])
  {
    var installed := InstallCSIDriver(w, i, connection);
    if installed.failed then (installed.world, Ended(true, false, false))
    else if !installed.block && installed.world.process.started then
      (installed.world, Ended(!i.storageSynced, false, true))
    else (installed.world, Ended(false, false, false))
  }

  function ManagedSync(w: World, i: SyncInput): (World, Ending)
    requires forall k :: 0 <= k < |i.check.results| ==> Sound(i.check.results[k])
  {
    if !i.driverConfigRead || i.driverAtStart.LookupFailed? || !i.cloudConfigLoaded then
      (Seen(w, i), Ended(true, false, false))
    else Finish(AtInstall(w, i), i, LoginResult(i.vCenters))
  }

  function SyncBody(w: World, i: SyncInput): (World, Ending)
    requires forall k :: 0 <= k < |i.check.results| ==> Sound(i.check.results[k])
  {
    if !i.stateRead || !i.infraRead then (w, Ended(true, false, false))
    else if !i.onVSphere then (w, Ended(false, false, false))
    else if i.management == Managed then ManagedSync(w, i)
    else if i.management != RemovedState then (w, Ended(false, false, false))
    else if w.process.management == Some(Managed) then (w, Exited)
    else RemoveOperands(w, i)
  }

  /** A whole sync; when it exits, a new process takes over. */
  function Sync(w: World, i: SyncInput): World
    requires forall k :: 0 <= k < |i.check.results| ==> Sound(i.check.results[k])
  {
    var (w', ending) := SyncBody(w, i);
    if ending.Exited? then Restarted(w', i.scheduledAt) else w'.(clock := i.scheduledAt)
  }

  /** A new process: the fields of the old one and its timers are gone, the cluster stays as it is. */
  function Restarted(w: World, now: int): World {
    w.(process := Fresh(now), wakeups := [], clock := now, everManaged := false, starts := 0)
  }

  // ---------- runs ----------

  /** A sync, a restart of the process, or a status write by somebody else. */
  datatype Event = Synced(input: SyncInput) | Crashed(now: int) | Others(conditions: seq<Condition>)

  ghost predicate Allowed(w: World, e: Event) {
    match e
    case Synced(i) => Plausible(w.clock, i)
    case Crashed(now) => w.clock < now
    case Others(cs) => forall kind :: kind == CHECK_DEGRADED || kind == UPGRADEABLE || kind == DISABLED ==>
                                        Find(cs, kind) == Find(w.conditions, kind)
  }

  function Following(w: World, e: Event): World
    requires e.Synced? ==> forall k :: 0 <= k < |e.input.check.results| ==> Sound(e.input.check.results[k])
  {
    match e
    case Synced(i) => Sync(w, i)
    case Crashed(now) => Restarted(w, now)
    case Others(cs) => w.(conditions := cs)
  }

  ghost predicate IsRun(w: World, events: seq<Event>)
    decreases |events|
  {
    events != [] ==> Allowed(w, events[0]) && IsRun(Following(w, events[0]), events[1..])
  }

  ghost function End(w: World, events: seq<Event>): World
    requires IsRun(w, events)
    decreases |events|
  {
    if events == [] then w else End(Following(w, events[0]), events[1..])
  }

  function StatusOf(cs: seq<Condition>, kind: string): Option<Status> {
    match Find(cs, kind)
    case None => None
    case Some(c) => Some(c.status)
  }

  predicate IsDegraded(cs: seq<Condition>) { StatusOf(cs, CHECK_DEGRADED) == Some(ConditionTrue) }

  /** A new process on a cluster as an earlier one may have left it. */
  ghost predicate Initial(w: World) {
    && w.process == Fresh(w.clock) && !w.everManaged && w.starts == 0
    && (IsDegraded(w.conditions) ==> StatusOf(w.conditions, UPGRADEABLE) == Some(ConditionFalse))
  }
}
