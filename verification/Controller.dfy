/** The controller object: its methods, proved against the transition system, and its vCenter sessions. */
module Controller {
  import opened Platform
  import opened CheckResults
  import opened EnvironmentChecker
  import opened Conditions
  import opened SyncMachine

  /** A vCenter connection: whether it holds a SOAP client and a REST client. */
  datatype Connection = Connection(client: bool, rest: bool)

  function SoapOpen(cs: seq<Connection>): nat {
    if cs == [] then 0 else SoapOpen(cs[..|cs| - 1]) + if cs[|cs| - 1].client then 1 else 0
  }

  function RestOpen(cs: seq<Connection>): nat {
    if cs == [] then 0 else RestOpen(cs[..|cs| - 1]) + if cs[|cs| - 1].client && cs[|cs| - 1].rest then 1 else 0
  }

  lemma {:induction false} SetLater(cs: seq<Connection>, k: nat, c: Connection)
    requires k < |cs| && !cs[k].client
    ensures SoapOpen(cs[k := c]) == SoapOpen(cs) + (if c.client then 1 else 0)
    ensures RestOpen(cs[k := c]) == RestOpen(cs) + (if c.client && c.rest then 1 else 0)
  {
    if k == |cs| - 1 {
      assert cs[k := c][..k] == cs[..k];
    } else {
      assert cs[k := c][..|cs| - 1] == cs[..|cs| - 1][k := c];
      SetLater(cs[..|cs| - 1], k, c);
    }
  }

  class VSphereController {
    var operandControllerStarted: bool
    var currentManagementState: Option<Management>
    var vCenterConnectionStatus: bool
    var connections: seq<Connection>
    const checker: EnvironmentChecker
    /** Cluster and vCenter side: stored conditions, queued re-syncs, open sessions. */
    var conditions: seq<Condition>
    var wakeups: seq<int>
    var soapSessions: int
    var restSessions: int
    ghost var clock: int
    ghost var everManaged: bool
    ghost var starts: nat
    ghost var loginDegraded: bool

    ghost function State(): World
      reads this, checker
    {
      World(Process(operandControllerStarted, currentManagementState, vCenterConnectionStatus, checker.State()),
            conditions, wakeups, clock, everManaged, starts, loginDegraded)
    }

    constructor (now: int, conditions: seq<Condition>)
      ensures fresh(checker) && connections == []
      ensures State() == World(Fresh(now), conditions, [], now, false, 0, false)
      ensures soapSessions == restSessions == 0
    {
      operandControllerStarted, currentManagementState, vCenterConnectionStatus, connections := false, None, false, [];
      checker := new EnvironmentChecker(now);
      this.conditions, wakeups, soapSessions, restSessions := conditions, [], 0, 0;
      clock, everManaged, starts, loginDegraded := now, false, 0, false;
    }

    // ---------- sessions ----------

    /** `loginToVCenter`: prepare all connections, then connect one after the other until one fails. */
    method LoginToVCenter(vs: seq<VCenterLogin>) returns (r: CheckResult)
      requires connections == []
      modifies this`connections, this`soapSessions, this`restSessions
      ensures r == LoginResult(vs)
      ensures soapSessions == old(soapSessions) + SoapOpen(connections)
      ensures restSessions == old(restSessions) + RestOpen(connections)
    {
      for i := 0 to |vs|
        invariant |connections| == i
                  && forall k :: 0 <= k < i ==> vs[k].prepared && connections[k] == Connection(false, false)
        invariant SoapOpen(connections) == RestOpen(connections) == 0
        invariant soapSessions == old(soapSessions) && restSessions == old(restSessions)
      {
        if !vs[i].prepared { return DegradedError(OpenshiftAPIError, "cannot prepare connection"); }
        connections := connections + [Connection(false, false)];
        assert connections[..i] + [connections[i]] == connections;
      }
      for i := 0 to |vs|
        invariant |connections| == |vs|
        invariant forall k :: 0 <= k < i ==> vs[k].soap && vs[k].rest
        invariant forall k :: i <= k < |vs| ==> connections[k] == Connection(false, false)
        invariant soapSessions == old(soapSessions) + SoapOpen(connections)
        invariant restSessions == old(restSessions) + RestOpen(connections)
      {
        var connected := Connect(i, vs[i]);
        if !connected {
          return CheckResult(Some("login failed"), ConnectionFailed, BlockUpgradeOrDegrade,
                             "Failed to connect to vSphere");
        }
      }
      r := PassResult();
    }

    /** `NewClient`: the SOAP client is kept even when the REST login that follows fails. */
    method Connect(k: nat, v: VCenterLogin) returns (ok: bool)
      requires k < |connections| && connections[k] == Connection(false, false)
      modifies this`connections, this`soapSessions, this`restSessions
      ensures ok == (v.soap && v.rest)
      ensures connections == old(connections)[k := Connection(v.soap, v.soap && v.rest)]
      ensures soapSessions - SoapOpen(connections) == old(soapSessions - SoapOpen(connections))
      ensures restSessions - RestOpen(connections) == old(restSessions - RestOpen(connections))
    {
      if !v.soap {
        assert connections == connections[k := Connection(false, false)];
        return false;
      }
      SetLater(connections, k, Connection(true, v.rest));
      soapSessions := soapSessions + 1;
      if !v.rest {
        connections := connections[k := Connection(true, false)];
        return false;
      }
      connections := connections[k := Connection(true, true)];
      restSessions := restSessions + 1;
      ok := true;
    }

    /** The deferred logout: every connection with a client is logged out, and the list is dropped. */
    method Logout()
      modifies this`connections, this`soapSessions, this`restSessions
      ensures connections == []
      ensures soapSessions == old(soapSessions) - SoapOpen(old(connections))
      ensures restSessions == old(restSessions) - RestOpen(old(connections))
    {
      for i := 0 to |connections|
        invariant connections == old(connections)
        invariant soapSessions == old(soapSessions) - SoapOpen(connections[..i])
        invariant restSessions == old(restSessions) - RestOpen(connections[..i])
      {
        assert connections[..i + 1][..i] == connections[..i];
        if connections[i].client {
          if connections[i].rest { restSessions := restSessions - 1; }
          soapSessions := soapSessions - 1;
        }
      }
      assert connections[..|connections|] == connections;
      connections := [];
    }

    // ---------- conditions and gates ----------

    method UpdateConditions(r: CheckResult, upgrade: Status, block: bool, ok: bool, ghost login: bool)
      returns (failed: bool)
      modifies this`conditions, this`loginDegraded
      ensures failed == !ok && State() == Write(old(State()), r, upgrade, block, ok, login)
    {
      var cs := Set(conditions,
                        if r.action == Degrade then Condition(CHECK_DEGRADED, ConditionTrue, Text(r.status), r.reason)
                                else Condition(CHECK_DEGRADED, ConditionFalse, "", ""));
      if !operandControllerStarted && block {
        cs := Set(cs, Condition(DISABLED, ConditionTrue, "", r.reason));
      } else {
        cs := Remove(cs, DISABLED);
      }
      cs := Remove(cs, AVAILABLE);
      cs := Set(cs, Condition(UPGRADEABLE, upgrade, Text(r.status), r.reason));
      if !ok { return true; }
      conditions := cs;
      loginDegraded := login && r.action == Degrade;
      failed := false;
    }

    method Assess(r: CheckResult, driver: DriverLookup, ok: bool, ghost login: bool)
      returns (failed: bool, blockInstall: bool, blockUpgrade: bool)
      requires Sound(r)
      modifies this`conditions, this`loginDegraded
      ensures Gate(State(), failed, blockInstall, blockUpgrade)
              == BlockUpgradeOrDegradeCluster(old(State()), r, driver, ok, login)
    {
      var a := CheckClusterStatus(r, driver);
      failed, blockInstall, blockUpgrade := false, false, false;
      match a.status {
        case Degraded =>
          failed := UpdateConditions(a.result, ConditionFalse, true, ok, login);
          blockInstall := true;
        case UpgradesUnknown =>
          failed := UpdateConditions(a.result, ConditionUnknown, true, ok, login);
          blockInstall := true;
        case UpgradesBlocked =>
          failed := UpdateConditions(a.result, ConditionFalse, false, ok, login);
          blockUpgrade := true;
        case InstallBlocked =>
          failed := UpdateConditions(a.result, ConditionFalse, true, ok, login);
          blockInstall, blockUpgrade := true, true;
        case AllGood =>
      }
    }

    method StartOperands()
      modifies this`operandControllerStarted, this`starts
      ensures State() == Start(old(State()))
    {
      operandControllerStarted, starts := true, starts + 1;
    }

    method ConcludeInstall(i: SyncInput, result: CheckResult, upgradeBlocked: bool) returns (failed: bool, block: bool)
      requires Sound(result)
      modifies this`conditions, this`loginDegraded, this`operandControllerStarted, this`starts
      ensures Installed(State(), failed, block) == Conclude(old(State()), i, result, upgradeBlocked)
    {
      var checkBlocksUpgrade;
      failed, block, checkBlocksUpgrade := Assess(result, i.driverAtCheck, i.checkWrite, false);
      if failed || block { return; }
      if !operandControllerStarted { StartOperands(); }
      var upgrade := if upgradeBlocked || checkBlocksUpgrade then ConditionFalse else ConditionTrue;
      failed := UpdateConditions(result, upgrade, false, i.finalWrite, false);
    }

    /** From the written secret on: run the checks if they are due, and act on their result. */
    method RunChecks(i: SyncInput, upgradeBlocked: bool) returns (failed: bool, block: bool)
      requires forall k :: 0 <= k < |i.check.results| ==> Sound(i.check.results[k])
      modifies this`conditions, this`loginDegraded, this`operandControllerStarted, this`starts, this`wakeups, checker
      ensures Installed(State(), failed, block) == CheckAndConclude(old(State()), i, upgradeBlocked)
    {
      ghost var before := State();
      var delay, result, ran := checker.Check(i.check);
      if !ran { return false, false; }
      WorstIsLastMaximum(i.check.results);
      wakeups := wakeups + [i.scheduledAt + delay];
      assert State() == Checked(before, i, delay);
      failed, block := ConcludeInstall(i, result, upgradeBlocked);
    }

    method Install(i: SyncInput, connection: CheckResult) returns (failed: bool, block: bool)
      requires Sound(connection) && forall k :: 0 <= k < |i.check.results| ==> Sound(i.check.results[k])
      modifies this`conditions, this`loginDegraded, this`operandControllerStarted, this`starts, this`wakeups, checker
      ensures Installed(State(), failed, block) == InstallCSIDriver(old(State()), i, connection)
    {
      var connectionBlocksUpgrade;
      failed, block, connectionBlocksUpgrade := Assess(connection, i.driverAtLogin, i.loginWrite, true);
      if failed || block { return; }
      if !i.secretApplied { return true, false; }
      failed, block := RunChecks(i, connectionBlocksUpgrade);
    }

    method RemoveAll(i: SyncInput) returns (ending: Ending)
      modifies this`conditions, this`loginDegraded
      ensures (State(), ending) == RemoveOperands(old(State()), i)
    {
      if !i.assetsDeleted || !i.storageClassDeleted { return Ended(true, true, false); }
      var cs := RemoveConditions(conditions, conditions);
      if !i.removalWrite { return Ended(true, true, false); }
      conditions, loginDegraded := cs, false;
      ending := Ended(false, true, false);
    }

    /** Everything between login and the deferred logout. */
    method SyncConnected(i: SyncInput, snapshot: seq<Condition>, connection: CheckResult) returns (ending: Ending)
      requires Sound(connection) && forall k :: 0 <= k < |i.check.results| ==> Sound(i.check.results[k])
      modifies this`conditions, this`loginDegraded, this`operandControllerStarted, this`starts, this`wakeups,
               this`vCenterConnectionStatus, checker
      ensures (State(), ending) == Finish(Connected(old(State()), snapshot, i, connection), i, connection)
    {
      var hasErrors := HasErrorConditions(snapshot);
      if connection.error.None? && hasErrors && !vCenterConnectionStatus { checker.ResetExpBackoff(i.resetAt); }
      vCenterConnectionStatus := connection.error.None?;
      assert State() == Connected(old(State()), snapshot, i, connection);
      var failed, block := Install(i, connection);
      if failed { return Ended(true, false, false); }
      if !block && operandControllerStarted { return Ended(!i.storageSynced, false, true); }
      ending := Ended(false, false, false);
    }

    /** Login, the work done while logged in, and the deferred logout: no session survives. */
    method LoginAndFinish(i: SyncInput, snapshot: seq<Condition>) returns (ending: Ending)
      requires connections == [] && forall k :: 0 <= k < |i.check.results| ==> Sound(i.check.results[k])
      modifies this, checker
      ensures var connection := LoginResult(i.vCenters);
              (State(), ending) == Finish(Connected(old(State()), snapshot, i, connection), i, connection)
      ensures connections == [] && soapSessions == old(soapSessions) && restSessions == old(restSessions)
    {
      ghost var before := State();
      var connection := LoginToVCenter(i.vCenters);
      assert State() == before;
      ending := SyncConnected(i, snapshot, connection);
      ghost var after := State();
      Logout();
      assert State() == after;
    }

    method SyncManaged(i: SyncInput) returns (ending: Ending)
      requires connections == [] && forall k :: 0 <= k < |i.check.results| ==> Sound(i.check.results[k])
      modifies this, checker
      ensures (State(), ending) == ManagedSync(old(State()), i)
      ensures connections == [] && soapSessions == old(soapSessions) && restSessions == old(restSessions)
    {
      var snapshot := conditions;
      currentManagementState, everManaged := Some(Managed), true;
      if !i.driverConfigRead || i.driverAtStart.LookupFailed? { return Ended(true, false, false); }
      if i.driverAtStart == Found(true) && !operandControllerStarted { StartOperands(); }
      ghost var seen := State();
      assert seen == Seen(old(State()), i);
      if !i.cloudConfigLoaded { return Ended(true, false, false); }
      ending := LoginAndFinish(i, snapshot);
    }

    /** One sync is one transition, and conserves the sessions on every path. */
    method Sync(i: SyncInput) returns (ending: Ending)
      requires connections == [] && forall k :: 0 <= k < |i.check.results| ==> Sound(i.check.results[k])
      modifies this, checker
      ensures (State(), ending) == SyncBody(old(State()), i)
      ensures connections == [] && soapSessions == old(soapSessions) && restSessions == old(restSessions)
    {
      if !i.stateRead || !i.infraRead { return Ended(true, false, false); }
      if !i.onVSphere { return Ended(false, false, false); }
      if i.management != Managed {
        if i.management == RemovedState {
          if currentManagementState == Some(Managed) { return Exited; }
          ending := RemoveAll(i);
          return;
        }
        return Ended(false, false, false);
      }
      ending := SyncManaged(i);
    }
  }
}
