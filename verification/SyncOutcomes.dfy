/** How a sync ends and what it leaves alone, read off its inputs. */
module SyncOutcomes {
  import Backoff
  import opened Platform
  import opened CheckResults
  import opened EnvironmentChecker
  import opened Conditions
  import opened SyncMachine
  import opened SyncTheorems

  // ---------- what a sync leaves alone ----------

  lemma UpdateKeepsForeign(cs: seq<Condition>, r: CheckResult, upgrade: Status, started: bool, block: bool)
    ensures Foreign(UpdatedConditions(cs, r, upgrade, started, block)) == Foreign(cs)
  {
    var degraded := if r.action == Degrade then Condition(CHECK_DEGRADED, ConditionTrue, Text(r.status), r.reason)
                    else Condition(CHECK_DEGRADED, ConditionFalse, "", "");
    var disabled := Condition(DISABLED, ConditionTrue, "", r.reason);
    var cs1 := Set(cs, degraded);
    var cs2 := if !started && block then Set(cs1, disabled) else Remove(cs1, DISABLED);
    SetKeepsForeign(cs, degraded);
    SetKeepsForeign(cs1, disabled);
    RemoveKeepsForeign(cs1, DISABLED);
    RemoveKeepsForeign(cs2, AVAILABLE);
    SetKeepsForeign(Remove(cs2, AVAILABLE), Condition(UPGRADEABLE, upgrade, Text(r.status), r.reason));
  }

  lemma WriteKeepsForeign(w: World, r: CheckResult, upgrade: Status, block: bool, ok: bool, login: bool)
    ensures Foreign(Write(w, r, upgrade, block, ok, login).conditions) == Foreign(w.conditions)
  {
    UpdateKeepsForeign(w.conditions, r, upgrade, w.process.started, block);
  }

  lemma GateKeepsForeign(w: World, r: CheckResult, driver: DriverLookup, ok: bool, login: bool)
    requires Sound(r)
    ensures Foreign(BlockUpgradeOrDegradeCluster(w, r, driver, ok, login).world.conditions) == Foreign(w.conditions)
  {
    var a := CheckClusterStatus(r, driver);
    WriteKeepsForeign(w, a.result, ConditionFalse, true, ok, login);
    WriteKeepsForeign(w, a.result, ConditionFalse, false, ok, login);
    WriteKeepsForeign(w, a.result, ConditionUnknown, true, ok, login);
  }

  lemma ConcludeKeepsForeign(w: World, i: SyncInput, r: CheckResult, upgradeBlocked: bool)
    requires Sound(r)
    ensures Foreign(Conclude(w, i, r, upgradeBlocked).world.conditions) == Foreign(w.conditions)
  {
    GateKeepsForeign(w, r, i.driverAtCheck, i.checkWrite, false);
    var gate := BlockUpgradeOrDegradeCluster(w, r, i.driverAtCheck, i.checkWrite, false);
    if !gate.failed && !gate.blockInstall {
      var w' := if gate.world.process.started then gate.world else Start(gate.world);
      var upgrade := if upgradeBlocked || gate.blockUpgrade then ConditionFalse else ConditionTrue;
      WriteKeepsForeign(w', r, upgrade, false, i.finalWrite, false);
    }
  }

  lemma InstallKeepsForeign(w: World, i: SyncInput, connection: CheckResult)
    requires Sound(connection) && forall k :: 0 <= k < |i.check.results| ==> Sound(i.check.results[k])
    ensures Foreign(InstallCSIDriver(w, i, connection).world.conditions) == Foreign(w.conditions)
  {
    GateKeepsForeign(w, connection, i.driverAtLogin, i.loginWrite, true);
    var gate := BlockUpgradeOrDegradeCluster(w, connection, i.driverAtLogin, i.loginWrite, true);
    var report := AfterCheck(gate.world.process.checker, i.check).1;
    if report.Ran? {
      WorstIsLastMaximum(i.check.results);
      ConcludeKeepsForeign(Checked(gate.world, i, report.delay), i, report.result, gate.blockUpgrade);
    }
  }

  /** No sync touches a condition of somebody else, unless it removes the operands. */
  lemma SyncKeepsForeign(w: World, i: SyncInput)
    requires Plausible(w.clock, i) && i.management != RemovedState
    ensures Foreign(SyncBody(w, i).0.conditions) == Foreign(w.conditions)
  {
    if ReachesLogin(i) { InstallKeepsForeign(AtInstall(w, i), i, LoginResult(i.vCenters)); }
  }

  /** Whose conditions are there after the events: those of the last foreign write, or of the start. */
  function LastForeign(start: seq<Condition>, events: seq<Event>): seq<Condition>
    decreases |events|
  {
    if events == [] then start
    else LastForeign(if events[0].Others? then Foreign(events[0].conditions) else start, events[1..])
  }

  /** Over any run without removal, foreign conditions are what the others last wrote. */
  lemma {:induction false} RunKeepsForeign(w: World, events: seq<Event>)
    requires IsRun(w, events)
    requires forall k :: 0 <= k < |events| ==> events[k].Synced? ==> events[k].input.management != RemovedState
    ensures Foreign(End(w, events).conditions) == LastForeign(Foreign(w.conditions), events)
    decreases |events|
  {
    if events != [] {
      if events[0].Synced? { SyncKeepsForeign(w, events[0].input); }
      RunKeepsForeign(Following(w, events[0]), events[1..]);
    }
  }

  // ---------- how a sync ends ----------

  predicate AllLoggedIn(i: SyncInput) {
    forall k :: 0 <= k < |i.vCenters| ==> i.vCenters[k].prepared && i.vCenters[k].soap && i.vCenters[k].rest
  }

  /** Once the checks are through: they were not due, or let the install go on and stored what they had to. */
  predicate GetsThrough(w: World, i: SyncInput)
    requires forall k :: 0 <= k < |i.check.results| ==> Sound(i.check.results[k])
  {
    if ChecksRun(w, i)
    then !BlocksInstall(Folded(i), i.driverAtCheck) && (Folded(i).action == Pass || i.checkWrite) && i.finalWrite
    else w.process.started || i.driverAtStart == Found(true)
  }

  lemma ConcludeEnds(w: World, i: SyncInput, r: CheckResult)
    requires Sound(r)
    ensures var c := Conclude(w, i, r, false);
            && (c.failed <==>
                 (r.action != Pass && !i.checkWrite) || (!BlocksInstall(r, i.driverAtCheck) && !i.finalWrite))
            && (!c.failed ==> (c.block <==> BlocksInstall(r, i.driverAtCheck)))
            && (!c.failed && !c.block ==> c.world.process.started)
  {
    BlocksInstallExactlyWhen(r, i.driverAtCheck);
  }

  lemma FinishEnds(w: World, i: SyncInput)
    requires Plausible(w.clock, i) && ReachesCheck(i)
    ensures var a, e := AtInstall(w, i), SyncBody(w, i).1;
            if ChecksRun(w, i) then
              var c := Conclude(AtConclusion(w, i), i, Folded(i), false);
              e == if c.failed then Ended(true, false, false)
                   else if !c.block && c.world.process.started then Ended(!i.storageSynced, false, true)
                   else Ended(false, false, false)
            else e == if a.process.started then Ended(!i.storageSynced, false, true) else Ended(false, false, false)
  {
    LoginGate(i.vCenters, i.driverAtLogin);
  }

  lemma FailedLoginEnds(w: World, i: SyncInput)
    requires Plausible(w.clock, i) && ReachesLogin(i) && !AllLoggedIn(i)
    ensures SyncBody(w, i).1 == Ended(!i.loginWrite, false, false)
  {
    LoginGate(i.vCenters, i.driverAtLogin);
  }

  lemma UnwrittenSecretEnds(w: World, i: SyncInput)
    requires Plausible(w.clock, i) && ReachesLogin(i) && AllLoggedIn(i) && !i.secretApplied
    ensures SyncBody(w, i).1 == Ended(true, false, false)
  {
    LoginGate(i.vCenters, i.driverAtLogin);
  }

  /** A sync gets as far as the storage class exactly when it logs in, writes the secret and gets through. */
  lemma StorageSyncedExactlyWhen(w: World, i: SyncInput)
    requires Plausible(w.clock, i)
    ensures SyncBody(w, i).1.Ended? && SyncBody(w, i).1.storageSync <==>
              ReachesLogin(i) && AllLoggedIn(i) && i.secretApplied && GetsThrough(w, i)
  {
    if ReachesLogin(i) {
      if !AllLoggedIn(i) {
        FailedLoginEnds(w, i);
      } else if !i.secretApplied {
        UnwrittenSecretEnds(w, i);
      } else {
        FinishEnds(w, i);
        if ChecksRun(w, i) { ConcludeEnds(AtConclusion(w, i), i, Folded(i)); }
      }
    }
  }

  predicate ManagedFails(w: World, i: SyncInput)
    requires forall k :: 0 <= k < |i.check.results| ==> Sound(i.check.results[k])
  {
    || !i.driverConfigRead || i.driverAtStart.LookupFailed? || !i.cloudConfigLoaded
    || (if !AllLoggedIn(i) then !i.loginWrite
        else
          || !i.secretApplied
          || (ChecksRun(w, i) && Folded(i).action != Pass && !i.checkWrite)
          || (ChecksRun(w, i) && !BlocksInstall(Folded(i), i.driverAtCheck) && !i.finalWrite)
          || (GetsThrough(w, i) && !i.storageSynced))
  }

  /** A sync fails exactly when something that it needed failed, and exits exactly on removal after Managed. */
  lemma FailsExactlyWhen(w: World, i: SyncInput)
    requires Plausible(w.clock, i)
    ensures var e := SyncBody(w, i).1;
            && (e.Ended? && e.failed <==>
                 || !i.stateRead || !i.infraRead
                 || (i.onVSphere && i.management == Managed && ManagedFails(w, i))
                 || (i.onVSphere && i.management == RemovedState && w.process.management != Some(Managed)
                     && !(i.assetsDeleted && i.storageClassDeleted && i.removalWrite)))
            && (e.Exited? <==> i.stateRead && i.infraRead && i.onVSphere && i.management == RemovedState
                               && w.process.management == Some(Managed))
  {
    if ReachesLogin(i) {
      if !AllLoggedIn(i) {
        FailedLoginEnds(w, i);
      } else if !i.secretApplied {
        UnwrittenSecretEnds(w, i);
      } else {
        FinishEnds(w, i);
        if ChecksRun(w, i) { ConcludeEnds(AtConclusion(w, i), i, Folded(i)); }
      }
    }
  }

  lemma ConcludeKeepsWakeups(w: World, i: SyncInput, r: CheckResult)
    requires Sound(r)
    ensures Conclude(w, i, r, false).world.wakeups == w.wakeups
  {}

  lemma WakesUpWhenChecked(w: World, i: SyncInput)
    requires Plausible(w.clock, i) && ChecksRun(w, i)
    ensures var after := SyncBody(w, i).0;
            after.wakeups == w.wakeups + [i.scheduledAt + (after.process.checker.nextCheck - i.check.started)]
  {
    InstallWhenChecked(w, i);
    CheckedSync(w, i);
    ConcludeKeepsWakeups(AtConclusion(w, i), i, Folded(i));
  }

  lemma SleepsWhenUnchecked(w: World, i: SyncInput)
    requires Plausible(w.clock, i) && !ChecksRun(w, i)
    ensures SyncBody(w, i).0.wakeups == w.wakeups
  {
    LoginGate(i.vCenters, i.driverAtLogin);
  }

  /** A sync queues a wake-up exactly when it runs the checks: the checks' delay after the moment it schedules it. */
  lemma WakesUpExactlyWhen(w: World, i: SyncInput)
    requires Plausible(w.clock, i)
    ensures var after := SyncBody(w, i).0;
            after.wakeups == w.wakeups + if ChecksRun(w, i)
                                         then [i.scheduledAt + (after.process.checker.nextCheck - i.check.started)]
                                         else []
  {
    if ChecksRun(w, i) { WakesUpWhenChecked(w, i); } else { SleepsWhenUnchecked(w, i); }
  }

  // ---------- what a failed login shows ----------

  /** A connection that cannot even be prepared degrades; one that fails depends on what is known of the driver. */
  function LoginDisplay(i: SyncInput, started: bool): (Display, string) {
    var disabled := if started then None else Some(ConditionTrue);
    if exists k :: 0 <= k < |i.vCenters| && !i.vCenters[k].prepared then
      (Display(Some(ConditionTrue), Some(ConditionFalse), disabled), "openshift_api_error")
    else
      match i.driverAtLogin
      case LookupFailed(_) => (Display(Some(ConditionTrue), Some(ConditionFalse), disabled), "openshift_api_error")
      case Found(true) => (Display(Some(ConditionTrue), Some(ConditionFalse), disabled), "vsphere_connection_failed")
      case _ => (Display(Some(ConditionFalse), Some(ConditionUnknown), disabled), "vsphere_connection_failed")
  }

  lemma FailedLoginWorld(w: World, i: SyncInput)
    requires Plausible(w.clock, i) && ReachesLogin(i) && !AllLoggedIn(i)
    ensures LoginResult(i.vCenters).action != Pass && LoginResult(i.vCenters).error.Some?
    ensures SyncBody(w, i).0
            == BlockUpgradeOrDegradeCluster(AtInstall(w, i), LoginResult(i.vCenters), i.driverAtLogin, i.loginWrite,
                                            true).world
  {
    LoginGate(i.vCenters, i.driverAtLogin);
  }

  lemma ConditionsAfterFailedLogin(w: World, i: SyncInput)
    requires Plausible(w.clock, i) && ReachesLogin(i) && !AllLoggedIn(i)
    ensures var after := SyncBody(w, i).0;
            && !after.process.connected && after.process.checker == w.process.checker
            && if i.loginWrite then
                 && Shown(after.conditions) == LoginDisplay(i, Seen(w, i).process.started).0
                 && ReasonOf(after.conditions) == Some(LoginDisplay(i, Seen(w, i).process.started).1)
               else after.conditions == w.conditions
  {
    FailedLoginWorld(w, i);
    var r := LoginResult(i.vCenters);
    GateKeepsProcess(AtInstall(w, i), r, i.driverAtLogin, i.loginWrite);
    GateShows(AtInstall(w, i), r, i.driverAtLogin, true);
    LoginDisplayIsExpected(i, Seen(w, i).process.started);
  }

  lemma GateKeepsProcess(w: World, r: CheckResult, driver: DriverLookup, ok: bool)
    requires Sound(r)
    ensures var after := BlockUpgradeOrDegradeCluster(w, r, driver, ok, true).world;
            after.process == w.process && (!ok ==> after.conditions == w.conditions)
  {}

  lemma LoginDisplayIsExpected(i: SyncInput, started: bool)
    requires !AllLoggedIn(i)
    ensures var r := LoginResult(i.vCenters);
            LoginDisplay(i, started)
            == (ExpectedDisplay(r, i.driverAtLogin, started), ExpectedReason(r, i.driverAtLogin))
  {}

  // ---------- removal ----------

  /** Conditions are removed exactly when both deletions and the write succeed, and then exactly the removable ones. */
  lemma RemovalExactlyWhen(w: World, i: SyncInput)
    requires i.stateRead && i.infraRead && i.onVSphere && i.management == RemovedState
    requires w.process.management != Some(Managed)
    requires forall k :: 0 <= k < |i.check.results| ==> Sound(i.check.results[k])
    ensures var (after, e) := SyncBody(w, i);
            && after.process == w.process && e.Ended? && e.removal
            && if i.assetsDeleted && i.storageClassDeleted && i.removalWrite then
                 && !e.failed && Find(after.conditions, DISABLED) == Some(DisabledCondition())
                 && forall d: Condition :: d.kind != DISABLED ==>
                      (d in after.conditions <==> d in w.conditions && !Removable(d.kind))
               else e.failed && after.conditions == w.conditions
  {
    RemovalIsExact(w.conditions, w.conditions);
  }

  // ---------- resetting the checker ----------

  /** The checker is reset exactly when a lost connection is back while some error condition is stored. */
  lemma ResetExactlyWhen(w: World, i: SyncInput)
    requires ReachesLogin(i)
    ensures var c := AtInstall(w, i).process.checker;
            if AllLoggedIn(i) && !w.process.connected && exists d :: d in w.conditions && IsError(d)
            then c.nextCheck == i.resetAt && c.backoff == Backoff.Default(Backoff.HOUR)
                 && c.lastCheck == w.process.checker.lastCheck
            else c == w.process.checker
  {
    LoginGate(i.vCenters, i.driverAtLogin);
  }

  lemma UpgradeBlockIsError(reason: string, message: string)
    ensures IsError(Condition(UPGRADEABLE, ConditionFalse, reason, message))
  {
    assert UPGRADEABLE == "VMwareVSphereController" + "Upgradeable";
    EndsWithMeans(UPGRADEABLE, "Upgradeable");
  }

  /** A block of upgrades is error enough: reconnecting runs the checks. */
  lemma UpgradeBlockAloneResets(w: World, i: SyncInput, reason: string, message: string)
    requires Plausible(w.clock, i) && ReachesCheck(i) && !w.process.connected
    requires Condition(UPGRADEABLE, ConditionFalse, reason, message) in w.conditions
    ensures ChecksRun(w, i)
  {
    UpgradeBlockIsError(reason, message);
    LoginGate(i.vCenters, i.driverAtLogin);
    ResetExactlyWhen(w, i);
  }
}
