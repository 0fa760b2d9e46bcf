/** What every run of syncs, crashes and foreign status writes keeps. */
module SyncTheorems {
  import Backoff
  import opened Platform
  import opened CheckResults
  import opened EnvironmentChecker
  import opened Conditions
  import opened SyncMachine

  // ---------- what the conditions say ----------

  /** The three conditions of this controller as a reader of the status sees them. */
  datatype Display = Display(degraded: Option<Status>, upgradeable: Option<Status>, disabled: Option<Status>)

  function Shown(cs: seq<Condition>): Display {
    Display(StatusOf(cs, CHECK_DEGRADED), StatusOf(cs, UPGRADEABLE), StatusOf(cs, DISABLED))
  }

  lemma UpdatedShows(cs: seq<Condition>, r: CheckResult, upgrade: Status, started: bool, block: bool)
    ensures Shown(UpdatedConditions(cs, r, upgrade, started, block))
            == Display(Some(if r.action == Degrade then ConditionTrue else ConditionFalse), Some(upgrade),
                       if !started && block then Some(ConditionTrue) else None)
    ensures var d := Find(UpdatedConditions(cs, r, upgrade, started, block), CHECK_DEGRADED);
            r.action == Degrade ==> d == Some(Condition(CHECK_DEGRADED, ConditionTrue, Text(r.status), r.reason))
    ensures var after := UpdatedConditions(cs, r, upgrade, started, block);
            && Find(after, UPGRADEABLE) == Some(Condition(UPGRADEABLE, upgrade, Text(r.status), r.reason))
            && (!started && block ==> Find(after, DISABLED) == Some(Condition(DISABLED, ConditionTrue, "", r.reason)))
            && Find(after, AVAILABLE).None?
  {
    KindsDiffer();
    var degraded := if r.action == Degrade then Condition(CHECK_DEGRADED, ConditionTrue, Text(r.status), r.reason)
                    else Condition(CHECK_DEGRADED, ConditionFalse, "", "");
    var disabled := Condition(DISABLED, ConditionTrue, "", r.reason);
    var upgradeable := Condition(UPGRADEABLE, upgrade, Text(r.status), r.reason);
    var cs1 := Set(cs, degraded);
    var cs2 := if !started && block then Set(cs1, disabled) else Remove(cs1, DISABLED);
    var cs3 := Remove(cs2, AVAILABLE);
    FindAfterSet(cs, degraded, CHECK_DEGRADED);
    FindAfterSet(cs1, disabled, CHECK_DEGRADED);
    FindAfterSet(cs1, disabled, DISABLED);
    FindAfterRemove(cs1, DISABLED, CHECK_DEGRADED);
    FindAfterRemove(cs1, DISABLED, DISABLED);
    FindAfterRemove(cs2, AVAILABLE, CHECK_DEGRADED);
    FindAfterRemove(cs2, AVAILABLE, DISABLED);
    FindAfterRemove(cs2, AVAILABLE, AVAILABLE);
    FindAfterSet(cs3, upgradeable, AVAILABLE);
    FindAfterSet(cs3, upgradeable, CHECK_DEGRADED);
    FindAfterSet(cs3, upgradeable, DISABLED);
    FindAfterSet(cs3, upgradeable, UPGRADEABLE);
  }

  // ---------- the invariant of every run ----------

  ghost predicate Inv(w: World) {
    && (w.everManaged <==> w.process.management == Some(Managed))
    && (w.process.started ==> w.everManaged)
    && w.starts == (if w.process.started then 1 else 0)
    && (IsDegraded(w.conditions) ==> StatusOf(w.conditions, UPGRADEABLE) == Some(ConditionFalse))
  }

  lemma WriteKeepsInv(w: World, r: CheckResult, upgrade: Status, block: bool, ok: bool, login: bool)
    requires Inv(w) && (r.action == Degrade ==> upgrade == ConditionFalse)
    ensures Inv(Write(w, r, upgrade, block, ok, login))
  {
    UpdatedShows(w.conditions, r, upgrade, w.process.started, block);
  }

  lemma GateKeepsInv(w: World, r: CheckResult, driver: DriverLookup, ok: bool, login: bool)
    requires Inv(w) && Sound(r)
    ensures Inv(BlockUpgradeOrDegradeCluster(w, r, driver, ok, login).world)
    ensures BlockUpgradeOrDegradeCluster(w, r, driver, ok, login).world.process == w.process
    ensures BlockUpgradeOrDegradeCluster(w, r, driver, ok, login).blockInstall
            <==> Stops(CheckClusterStatus(r, driver).status)
  {
    var a := CheckClusterStatus(r, driver);
    WriteKeepsInv(w, a.result, ConditionFalse, true, ok, login);
    WriteKeepsInv(w, a.result, ConditionFalse, false, ok, login);
    if a.result.action != Degrade { WriteKeepsInv(w, a.result, ConditionUnknown, true, ok, login); }
  }

  lemma ConcludeKeepsInv(w: World, i: SyncInput, result: CheckResult, upgradeBlocked: bool)
    requires Inv(w) && w.everManaged && Sound(result)
    ensures Inv(Conclude(w, i, result, upgradeBlocked).world)
  {
    GateKeepsInv(w, result, i.driverAtCheck, i.checkWrite, false);
    var gate := BlockUpgradeOrDegradeCluster(w, result, i.driverAtCheck, i.checkWrite, false);
    if !gate.failed && !gate.blockInstall {
      var w' := if gate.world.process.started then gate.world else Start(gate.world);
      var upgrade := if upgradeBlocked || gate.blockUpgrade then ConditionFalse else ConditionTrue;
      WriteKeepsInv(w', result, upgrade, false, i.finalWrite, false);
    }
  }

  lemma InstallKeepsInv(w: World, i: SyncInput, connection: CheckResult)
    requires Inv(w) && w.everManaged && Sound(connection) && Plausible(w.clock, i)
    ensures Inv(InstallCSIDriver(w, i, connection).world)
  {
    GateKeepsInv(w, connection, i.driverAtLogin, i.loginWrite, true);
    var gate := BlockUpgradeOrDegradeCluster(w, connection, i.driverAtLogin, i.loginWrite, true);
    var report := AfterCheck(gate.world.process.checker, i.check).1;
    if !gate.failed && !gate.blockInstall && i.secretApplied && report.Ran? {
      WorstIsLastMaximum(i.check.results);
      ConcludeKeepsInv(Checked(gate.world, i, report.delay), i, report.result, gate.blockUpgrade);
    }
  }

  lemma RemovalShows(cs: seq<Condition>)
    ensures Shown(Removed(cs, cs)) == Display(None, None, Some(ConditionTrue))
  {
    RemovalIsExact(cs, cs);
    OwnKindsAreRemovable();
    KindsDiffer();
    FindIsMember(Removed(cs, cs), CHECK_DEGRADED);
    FindIsMember(Removed(cs, cs), UPGRADEABLE);
  }

  lemma ManagedKeepsInv(w: World, i: SyncInput)
    requires Inv(w) && Plausible(w.clock, i)
    ensures Inv(ManagedSync(w, i).0)
  {
    var a := AtInstall(w, i);
    assert Inv(Seen(w, i));
    assert Inv(a) && a.everManaged && a.clock == w.clock;
    InstallKeepsInv(a, i, LoginResult(i.vCenters));
  }

  lemma BodyKeepsInv(w: World, i: SyncInput)
    requires Inv(w) && Plausible(w.clock, i)
    ensures Inv(SyncBody(w, i).0)
  {
    RemovalShows(w.conditions);
    ManagedKeepsInv(w, i);
  }

  lemma EventKeepsInv(w: World, e: Event)
    requires Inv(w) && Allowed(w, e)
    ensures Inv(Following(w, e))
  {
    if e.Synced? { BodyKeepsInv(w, e.input); }
  }

  lemma {:induction false} RunKeepsInv(w: World, events: seq<Event>)
    requires Inv(w) && IsRun(w, events)
    ensures Inv(End(w, events))
    decreases |events|
  {
    if events != [] {
      EventKeepsInv(w, events[0]);
      RunKeepsInv(Following(w, events[0]), events[1..]);
    }
  }

  /**
   After any run: the operands were started at most once by this process; Degraded=True never comes
   with Upgradeable other than False; and if this process was ever Managed, the next sync does not
   execute removeOperands, whatever management states came in between.
   */
  lemma EveryRunIsSafe(w: World, events: seq<Event>, next: SyncInput)
    requires Initial(w) && IsRun(w, events) && Plausible(End(w, events).clock, next)
    ensures var end := End(w, events);
            && end.starts <= 1 && (end.starts == 1 <==> end.process.started)
            && (IsDegraded(end.conditions) ==> StatusOf(end.conditions, UPGRADEABLE) == Some(ConditionFalse))
            && (end.everManaged || end.process.started ==>
                 var ending := SyncBody(end, next).1;
                 (ending.Ended? ==> !ending.removal)
                 && (next.stateRead && next.infraRead && next.onVSphere && next.management == RemovedState
                    ==> ending.Exited?))
  {
    RunKeepsInv(w, events);
  }

  // ---------- one sync ----------

  /** The connection gate lets a sync pass exactly when every login succeeded. */
  lemma LoginGate(vs: seq<VCenterLogin>, driver: DriverLookup)
    ensures Stops(CheckClusterStatus(LoginResult(vs), driver).status) <==> LoginResult(vs).action != Pass
    ensures LoginResult(vs).action == Pass ==> CheckClusterStatus(LoginResult(vs), driver).status == AllGood
    ensures LoginResult(vs).action == Pass <==> LoginResult(vs).error.None?
  {}

  /** Whether a sync gets as far as calling the environment checker, and whether the checker runs. */
  predicate ReachesCheck(i: SyncInput) {
    ReachesLogin(i) && LoginResult(i.vCenters).action == Pass && i.secretApplied
  }

  predicate ChecksRun(w: World, i: SyncInput) {
    ReachesCheck(i) && AfterCheck(AtInstall(w, i).process.checker, i.check).1.Ran?
  }

  function Folded(i: SyncInput): (r: CheckResult)
    requires forall k :: 0 <= k < |i.check.results| ==> Sound(i.check.results[k])
    ensures Sound(r)
  {
    WorstIsLastMaximum(i.check.results);
    if Worst(i.check.results).action == Pass then PassResult() else Worst(i.check.results)
  }

  /** The state after login and driver lookup, once the checks were executed. */
  function AtConclusion(w: World, i: SyncInput): World
    requires ChecksRun(w, i)
  {
    var a := AtInstall(w, i);
    Checked(a, i, AfterCheck(a.process.checker, i.check).1.delay)
  }

  lemma InstallWhenChecked(w: World, i: SyncInput)
    requires Plausible(w.clock, i) && ChecksRun(w, i)
    ensures AfterCheck(AtInstall(w, i).process.checker, i.check).1.result == Folded(i)
    ensures SyncBody(w, i).0 == Conclude(AtConclusion(w, i), i, Folded(i), false).world
  {
    LoginGate(i.vCenters, i.driverAtLogin);
  }

  /** A sync that does not run the checks leaves the conditions alone, or marks a failed login. */
  lemma UncheckedSync(w: World, i: SyncInput)
    requires Plausible(w.clock, i) && ReachesLogin(i) && !ChecksRun(w, i)
    ensures var after := SyncBody(w, i).0;
            && after.process == AtInstall(w, i).process
            && (LoginResult(i.vCenters).action == Pass ==>
                 after.conditions == w.conditions && after.loginDegraded == w.loginDegraded)
  {
    LoginGate(i.vCenters, i.driverAtLogin);
  }

  /** The driver lookup at the start of a Managed sync finds our annotated CSIDriver. */
  predicate SeesOwnDriver(i: SyncInput) {
    i.stateRead && i.infraRead && i.onVSphere && i.management == Managed
    && i.driverConfigRead && i.driverAtStart == Found(true)
  }

  lemma ConcludeStarts(w: World, i: SyncInput, r: CheckResult)
    requires Sound(r)
    ensures Conclude(w, i, r, false).world.process.started <==>
              || w.process.started
              || (!Stops(CheckClusterStatus(r, i.driverAtCheck).status) && (r.action == Pass || i.checkWrite))
  {}

  /**
   A sync starts the operands exactly when it sees an annotated CSIDriver, or runs checks that do not block the
   install and whose warning, if any, is stored.
   */
  lemma StartsExactlyWhen(w: World, i: SyncInput)
    requires Plausible(w.clock, i) && !w.process.started
    ensures SyncBody(w, i).0.process.started <==>
              || SeesOwnDriver(i)
              || (ChecksRun(w, i) && !Stops(CheckClusterStatus(Folded(i), i.driverAtCheck).status)
                  && (Folded(i).action == Pass || i.checkWrite))
  {
    if ChecksRun(w, i) {
      InstallWhenChecked(w, i);
      ConcludeStarts(AtConclusion(w, i), i, Folded(i));
    } else if ReachesLogin(i) {
      UncheckedSync(w, i);
    }
  }

  /**
   The existing-driver check in its place: where it finds an unsupported driver, the operands are started all the
   same exactly when the checks run, their result is stored, and the other results overrule it.
   */
  lemma UnsupportedDriverStartsExactlyWhen(
      w: World, i: SyncInput, nodes: Option<seq<seq<string>>>, existing: seq<CheckResult>, rest: seq<CheckResult>)
    requires Plausible(w.clock, i) && !w.process.started && i.driverAtStart == i.driverAtCheck
    requires i.check.results == existing + rest && ExistingDriverVerdict(i.driverAtCheck, nodes, existing)
    requires Unsupported(i.driverAtCheck, nodes)
    ensures SyncBody(w, i).0.process.started <==> ChecksRun(w, i) && i.checkWrite && Overruled(rest, i.driverAtCheck)
  {
    StartsExactlyWhen(w, i);
    FoldOverrules(i.check.results, existing[0], rest, i.driverAtCheck);
  }

  lemma FoldOverrules(results: seq<CheckResult>, first: CheckResult, rest: seq<CheckResult>, driver: DriverLookup)
    requires first.action == BlockUpgradeDriverInstall && results == [first] + rest
    requires forall k :: 0 <= k < |results| ==> Sound(results[k])
    ensures Sound(Worst(results)) && Worst(results).action != Pass
    ensures !Stops(CheckClusterStatus(Worst(results), driver).status) <==> Overruled(rest, driver)
  {
    assert results[0] == first;
    WorstIsLastMaximum(results);
    InstallBlockOverruledExactlyWhen(results, driver);
    SameOverruling(first, rest, driver);
  }

  lemma SameOverruling(first: CheckResult, rest: seq<CheckResult>, driver: DriverLookup)
    requires first.action == BlockUpgradeDriverInstall
    ensures Overruled([first] + rest, driver) <==> Overruled(rest, driver)
  {
    var all := [first] + rest;
    assert forall i :: 1 <= i < |all| ==> all[i] == rest[i - 1];
    if Overruled(all, driver) {
      var k :| LastWarning(all, k) && all[k].status != ConnectionFailed;
      ShiftedWarning(first, rest, k);
      forall i | 0 <= i < |rest| ensures rest[i].action != Degrade { assert all[i + 1] == rest[i]; }
    }
    if Overruled(rest, driver) {
      var k :| LastWarning(rest, k) && rest[k].status != ConnectionFailed;
      ShiftedWarning(first, rest, k + 1);
      assert all[k + 1] == rest[k];
    }
  }

  lemma ShiftedWarning(first: CheckResult, rest: seq<CheckResult>, k: int)
    requires first.action == BlockUpgradeDriverInstall
    ensures LastWarning([first] + rest, k) <==> LastWarning(rest, k - 1)
  {
    var all := [first] + rest;
    assert forall i :: 1 <= i < |all| ==> all[i] == rest[i - 1];
    if LastWarning(all, k) {
      forall i | k - 1 < i < |rest| ensures rest[i].action != BlockUpgradeOrDegrade { assert all[i + 1] == rest[i]; }
    }
  }

  /** The displayed conditions as a table over folded result, CSIDriver and operand state. */
  function ExpectedDisplay(r: CheckResult, driver: DriverLookup, started: bool): Display {
    var disabled := if started then None else Some(ConditionTrue);
    match r.action
    case Pass => Display(Some(ConditionFalse), Some(ConditionTrue), None)
    case BlockUpgrade => Display(Some(ConditionFalse), Some(ConditionFalse), None)
    case BlockUpgradeDriverInstall => Display(Some(ConditionFalse), Some(ConditionFalse), disabled)
    case Degrade => Display(Some(ConditionTrue), Some(ConditionFalse), disabled)
    case BlockUpgradeOrDegrade =>
      if driver.LookupFailed? || driver == Found(true) then Display(Some(ConditionTrue), Some(ConditionFalse), disabled)
      else if r.status == ConnectionFailed then Display(Some(ConditionFalse), Some(ConditionUnknown), disabled)
      else Display(Some(ConditionFalse), Some(ConditionFalse), None)
  }

  /** The write that stores the conclusion of the checks succeeds: after a pass the last one, otherwise the first. */
  predicate ConclusionStored(i: SyncInput) {
    if Worst(i.check.results).action == Pass then i.finalWrite else i.checkWrite
  }

  /** The reason given for the state of upgrades: that of the result, or of a failed lookup. */
  function ExpectedReason(r: CheckResult, driver: DriverLookup): string {
    if r.action == BlockUpgradeOrDegrade && driver.LookupFailed? then "openshift_api_error" else Text(r.status)
  }

  /** What a gate that does not let everything pass writes. */
  lemma GateShows(w: World, r: CheckResult, driver: DriverLookup, login: bool)
    requires Sound(r) && r.action != Pass
    ensures var after := BlockUpgradeOrDegradeCluster(w, r, driver, true, login).world;
            && after.process == w.process
            && Shown(after.conditions) == ExpectedDisplay(r, driver, w.process.started)
            && ReasonOf(after.conditions) == Some(ExpectedReason(r, driver))
            && (!login ==> !after.loginDegraded)
  {
    var a := CheckClusterStatus(r, driver);
    UpdatedShows(w.conditions, a.result, if a.status == UpgradesUnknown then ConditionUnknown else ConditionFalse,
                 w.process.started, a.status != UpgradesBlocked);
  }

  function ReasonOf(cs: seq<Condition>): Option<string> {
    match Find(cs, UPGRADEABLE)
    case None => None
    case Some(c) => Some(c.reason)
  }

  lemma ConclusionShows(w: World, i: SyncInput, r: CheckResult)
    requires Sound(r) && if r.action == Pass then i.finalWrite else i.checkWrite
    ensures var after := Conclude(w, i, r, false).world;
            && Shown(after.conditions) == ExpectedDisplay(r, i.driverAtCheck, w.process.started)
            && ReasonOf(after.conditions) == Some(ExpectedReason(r, i.driverAtCheck))
            && !after.loginDegraded
  {
    BlocksInstallExactlyWhen(r, i.driverAtCheck);
    if r.action != Pass { GateShows(w, r, i.driverAtCheck, false); }
    if !BlocksInstall(r, i.driverAtCheck) {
      var gate := BlockUpgradeOrDegradeCluster(w, r, i.driverAtCheck, i.checkWrite, false);
      UpdatedShows(gate.world.conditions, r, if r.action == Pass then ConditionTrue else ConditionFalse, true, false);
    }
  }

  lemma LostConclusion(w: World, i: SyncInput, r: CheckResult)
    requires Sound(r) && if r.action == Pass then !i.finalWrite else !i.checkWrite
    ensures var after := Conclude(w, i, r, false).world;
            after.conditions == w.conditions && after.loginDegraded == w.loginDegraded
  {}

  lemma ConcludeKeepsChecker(w: World, i: SyncInput, r: CheckResult)
    requires Sound(r)
    ensures var p := Conclude(w, i, r, false).world.process;
            p.checker == w.process.checker && p.connected == w.process.connected
  {}

  /**
   Whenever checks run, the stored conditions are that table, and not a login's doing, exactly as far as
   the write that stores the conclusion succeeds; otherwise they are what they were.
   */
  lemma ConditionsAfterChecks(w: World, i: SyncInput)
    requires Plausible(w.clock, i) && ChecksRun(w, i)
    ensures var after := SyncBody(w, i).0;
            if ConclusionStored(i)
            then Shown(after.conditions) == ExpectedDisplay(Folded(i), i.driverAtCheck, Seen(w, i).process.started)
                 && ReasonOf(after.conditions) == Some(ExpectedReason(Folded(i), i.driverAtCheck))
                 && !after.loginDegraded
            else after.conditions == w.conditions && after.loginDegraded == w.loginDegraded
  {
    InstallWhenChecked(w, i);
    if ConclusionStored(i) {
      ConclusionShows(AtConclusion(w, i), i, Folded(i));
    } else {
      LostConclusion(AtConclusion(w, i), i, Folded(i));
    }
  }

  /** Every executed check queues a re-sync no earlier than the next check is due. */
  lemma CheckQueuesResync(w: World, i: SyncInput)
    requires Plausible(w.clock, i) && ChecksRun(w, i)
    ensures var after := SyncBody(w, i).0;
            |after.wakeups| == |w.wakeups| + 1 && after.wakeups[|w.wakeups|] >= after.process.checker.nextCheck
  {
    InstallWhenChecked(w, i);
  }

  // ---------- recovery after a failed login ----------

  /** The stored Degraded=True is a failed login's. */
  predicate LoginFailureShown(w: World) { w.loginDegraded && IsDegraded(w.conditions) }

  /** Whoever stored a login failure as Degraded will have the checks run again. */
  ghost predicate WillRecheck(w: World) {
    LoginFailureShown(w) ==> !w.process.connected || w.process.checker.nextCheck <= w.clock
  }

  /** A sync that gets as far as the checks stores their conclusion; no other write matters. */
  predicate ConclusionKept(e: Event) { e.Synced? && ReachesCheck(e.input) ==> ConclusionStored(e.input) }

  lemma CheckedSync(w: World, i: SyncInput)
    requires Plausible(w.clock, i) && ChecksRun(w, i)
    ensures var p := SyncBody(w, i).0.process;
            p.connected && p.checker == AfterCheck(AtInstall(w, i).process.checker, i.check).0
  {
    LoginGate(i.vCenters, i.driverAtLogin);
    InstallWhenChecked(w, i);
    ConcludeKeepsChecker(AtConclusion(w, i), i, Folded(i));
  }

  /** As long as the promise holds, a sync that logs in and writes its secret runs the checks. */
  lemma PromiseRunsChecks(w: World, i: SyncInput)
    requires WillRecheck(w) && LoginFailureShown(w) && Plausible(w.clock, i) && ReachesCheck(i)
    ensures ChecksRun(w, i)
  {
    LoginGate(i.vCenters, i.driverAtLogin);
    DegradedIsError(w.conditions);
  }

  lemma PromiseWhenUnchecked(w: World, i: SyncInput)
    requires WillRecheck(w) && Plausible(w.clock, i) && !ChecksRun(w, i)
    ensures WillRecheck(Sync(w, i))
  {
    if ReachesLogin(i) {
      UncheckedSync(w, i);
      PromiseAtInstall(w, i);
    }
  }

  /** Login and reset leave the checker due, or the connection status false, wherever a login failure is shown. */
  lemma PromiseAtInstall(w: World, i: SyncInput)
    requires WillRecheck(w) && Plausible(w.clock, i)
    ensures var a := AtInstall(w, i);
            && (a.process.connected <==> LoginResult(i.vCenters).action == Pass)
            && (LoginFailureShown(w) ==> !a.process.connected || a.process.checker.nextCheck <= i.resetAt)
  {
    LoginGate(i.vCenters, i.driverAtLogin);
    if IsDegraded(w.conditions) { DegradedIsError(w.conditions); }
  }

  lemma PromiseWhenChecked(w: World, i: SyncInput)
    requires Plausible(w.clock, i) && ChecksRun(w, i)
    ensures WillRecheck(Sync(w, i)) <==>
              || !LoginFailureShown(w)
              || ConclusionStored(i)
              || AfterCheck(AtInstall(w, i).process.checker, i.check).0.nextCheck <= i.scheduledAt
  {
    ConditionsAfterChecks(w, i);
    CheckedSync(w, i);
  }

  /**
   A sync breaks the promise exactly when it runs the checks over a login's Degraded=True, loses the write
   that stores their conclusion, and ends before the next check is due.
   */
  lemma PromiseKeptExactlyWhen(w: World, i: SyncInput)
    requires WillRecheck(w) && Plausible(w.clock, i)
    ensures LoginFailureShown(w) && ReachesCheck(i) ==> ChecksRun(w, i)
    ensures WillRecheck(Sync(w, i)) <==>
              || !LoginFailureShown(w)
              || !ReachesCheck(i)
              || ConclusionStored(i)
              || AfterCheck(AtInstall(w, i).process.checker, i.check).0.nextCheck <= i.scheduledAt
  {
    if LoginFailureShown(w) && ReachesCheck(i) { PromiseRunsChecks(w, i); }
    if ChecksRun(w, i) {
      PromiseWhenChecked(w, i);
    } else {
      PromiseWhenUnchecked(w, i);
    }
  }

  lemma {:induction false} RunKeepsWillRecheck(w: World, events: seq<Event>)
    requires WillRecheck(w) && IsRun(w, events) && forall k :: 0 <= k < |events| ==> ConclusionKept(events[k])
    ensures WillRecheck(End(w, events))
    decreases |events|
  {
    if events != [] {
      if events[0].Synced? { PromiseKeptExactlyWhen(w, events[0].input); }
      RunKeepsWillRecheck(Following(w, events[0]), events[1..]);
    }
  }

  /**
   After any run that lost no conclusion, whatever other writes failed: if Degraded=True stems from a failed
   login, the first sync that logs in and writes the secret runs the checks; it overwrites the conditions
   exactly if it stores its own conclusion.
   */
  lemma FailedLoginIsRechecked(w: World, events: seq<Event>, i: SyncInput)
    requires Initial(w) && IsRun(w, events) && forall k :: 0 <= k < |events| ==> ConclusionKept(events[k])
    requires LoginFailureShown(End(w, events)) && Plausible(End(w, events).clock, i) && ReachesCheck(i)
    ensures ChecksRun(End(w, events), i)
    ensures var end, after := End(w, events), Sync(End(w, events), i);
            if ConclusionStored(i)
            then !after.loginDegraded
                 && Shown(after.conditions)
                    == ExpectedDisplay(Folded(i), i.driverAtCheck, Seen(end, i).process.started)
            else LoginFailureShown(after) && after.conditions == end.conditions
  {
    RunKeepsWillRecheck(w, events);
    PromiseRunsChecks(End(w, events), i);
    ConditionsAfterChecks(End(w, events), i);
  }

  /** A sync at time `now` in which everything works and every check passes. */
  function AllWell(now: int): SyncInput {
    SyncInput(true, true, true, Managed, true, Found(true), true,
              [VCenterLogin(true, true, true)], Found(true), true, true,
              now, CheckCall(now + 1, now + 1, 0, [PassResult()]), now + 1, Found(true), true, true,
              true, true, true, true)
  }

  /** The same with a vCenter that refuses the login. */
  function LoginFails(now: int): SyncInput { AllWell(now).(vCenters := [VCenterLogin(true, false, false)]) }

  /** The same with the last status write lost. */
  function WriteLost(now: int): SyncInput { AllWell(now).(finalWrite := false) }

  function NewWorld(now: int, cs: seq<Condition>): World { World(Fresh(now), cs, [], now, false, 0, false) }

  lemma FailedLoginShows(now: int, cs: seq<Condition>)
    ensures Plausible(now, LoginFails(now + 1))
    ensures var after := Sync(NewWorld(now, cs), LoginFails(now + 1));
            LoginFailureShown(after) && !after.process.connected && after.clock == now + 2
  {
    var i := LoginFails(now + 1);
    assert !i.vCenters[0].soap;
    var r := CheckClusterStatus(LoginResult(i.vCenters), Found(true)).result;
    UpdatedShows(cs, r, ConditionFalse, true, true);
  }

  lemma LosingSync(w: World, now: int)
    requires LoginFailureShown(w) && !w.process.connected && w.clock < now
    ensures Plausible(w.clock, WriteLost(now)) && Folded(WriteLost(now)).action == Pass
    ensures var after := Sync(w, WriteLost(now));
            && LoginFailureShown(after) && after.process.connected && after.clock == now + 1
            && after.process.checker.nextCheck == now + 1 + Backoff.HOUR
  {
    PromiseRunsChecks(w, WriteLost(now));
    CheckedSync(w, WriteLost(now));
    ConditionsAfterChecks(w, WriteLost(now));
  }

  /** A foreign status write, or a Managed sync whose logins, if it gets that far, succeed, before the check is due. */
  predicate Unalarming(e: Event, due: int) {
    || e.Others?
    || (e.Synced? && e.input.management == Managed && e.input.check.gate <= due
        && (ReachesLogin(e.input) ==> LoginResult(e.input.vCenters).action == Pass))
  }

  /** Among them are syncs that log in and write the secret, on a cluster where nothing is wrong. */
  lemma AllWellIsUnalarming(now: int, due: int)
    requires now < due
    ensures ReachesCheck(AllWell(now)) && Folded(AllWell(now)) == PassResult() && Unalarming(Synced(AllWell(now)), due)
  {}

  lemma HiddenSync(w: World, i: SyncInput)
    requires w.process.connected && Plausible(w.clock, i) && Unalarming(Synced(i), w.process.checker.nextCheck)
    ensures var after := Sync(w, i);
            && after.process.connected && after.process.checker == w.process.checker
            && after.conditions == w.conditions && after.loginDegraded == w.loginDegraded
  {
    if ReachesLogin(i) {
      LoginGate(i.vCenters, i.driverAtLogin);
      UncheckedSync(w, i);
    }
  }

  /** Until the check is due, no such run examines or changes what is shown. */
  lemma {:induction false} HiddenRun(w: World, events: seq<Event>)
    requires w.process.connected && IsRun(w, events)
    requires forall k :: 0 <= k < |events| ==> Unalarming(events[k], w.process.checker.nextCheck)
    ensures var end := End(w, events);
            && end.process.connected && end.process.checker == w.process.checker
            && (LoginFailureShown(w) ==> LoginFailureShown(end))
    decreases |events|
  {
    if events != [] {
      if events[0].Synced? { HiddenSync(w, events[0].input); }
      HiddenRun(Following(w, events[0]), events[1..]);
    }
  }

  lemma TwoSyncs(w: World, i: SyncInput, j: SyncInput)
    requires Plausible(w.clock, i) && Plausible(Sync(w, i).clock, j)
    ensures IsRun(w, [Synced(i), Synced(j)]) && End(w, [Synced(i), Synced(j)]) == Sync(Sync(w, i), j)
  {
    var run := [Synced(i), Synced(j)];
    assert run[1..] == [Synced(j)] && run[1..][1..] == [];
    assert IsRun(Sync(w, i), run[1..]);
    assert End(Sync(w, i), run[1..]) == End(Sync(Sync(w, i), j), run[1..][1..]) == Sync(Sync(w, i), j);
  }

  /**
   Two syncs after which a login failure is shown, and goes on being shown, with the next check where it was, over
   every unalarming run until then.
   */
  ghost predicate Hides(w: World, first: SyncInput, second: SyncInput, due: int) {
    && IsRun(w, [Synced(first), Synced(second)])
    && var end := End(w, [Synced(first), Synced(second)]);
    && LoginFailureShown(end) && !WillRecheck(end) && end.process.checker.nextCheck == due
    && forall later :: IsRun(end, later) && (forall k :: 0 <= k < |later| ==> Unalarming(later[k], due)) ==>
         LoginFailureShown(End(end, later)) && End(end, later).process.checker == end.process.checker
  }

  lemma HidesWhen(w: World, first: SyncInput, second: SyncInput)
    requires Plausible(w.clock, first) && Plausible(Sync(w, first).clock, second)
    requires var end := Sync(Sync(w, first), second);
             LoginFailureShown(end) && end.process.connected && end.clock < end.process.checker.nextCheck
    ensures Hides(w, first, second, Sync(Sync(w, first), second).process.checker.nextCheck)
  {
    TwoSyncs(w, first, second);
    var end := End(w, [Synced(first), Synced(second)]);
    forall later | IsRun(end, later)
                   && forall k :: 0 <= k < |later| ==> Unalarming(later[k], end.process.checker.nextCheck)
      ensures LoginFailureShown(End(end, later)) && End(end, later).process.checker == end.process.checker
    {
      HiddenRun(end, later);
    }
  }

  lemma HidesAfter(w: World, first: SyncInput, now: int)
    requires Plausible(w.clock, first)
    requires LoginFailureShown(Sync(w, first)) && !Sync(w, first).process.connected && Sync(w, first).clock < now
    ensures Hides(w, first, WriteLost(now), now + 1 + Backoff.HOUR)
  {
    LosingSync(Sync(w, first), now);
    HidesWhen(w, first, WriteLost(now));
  }

  /**
   The family that breaks the promise, at its most telling: a login fails and is reported; the next sync logs in
   and every check passes, but the last status write is lost; so Degraded=True stays although nothing is wrong, and
   for an hour no sync looks again, however many log in and write the secret.
   */
  lemma LostWriteHidesRecovery(now: int, cs: seq<Condition>)
    ensures Hides(NewWorld(now, cs), LoginFails(now + 1), WriteLost(now + 3), now + 4 + Backoff.HOUR)
  {
    FailedLoginShows(now, cs);
    HidesAfter(NewWorld(now, cs), LoginFails(now + 1), now + 3);
  }
}
