/** The legacy workspace before and after its conversion into a failure domain: the same datastore is reconciled. */
module LegacyTargets {
  import opened Platform
  import opened PlatformSpecConversion
  import StoragePolicy

  /**
   A spec without failure domains gets one exactly if it has vCenters, or a single one can be taken over from the legacy
   configuration; and that one is the workspace, part by part.
   */
  lemma WorkspaceBecomesDomain(config: Config, legacy: LegacyConfig, before: Option<Spec>, after: Spec)
    requires config.legacy == Some(legacy) && Converted(Some(config), before, after)
    requires Start(before).failureDomains == []
    ensures after.failureDomains != [] <==>
              || Start(before).vCenters != []
              || (|config.virtualCenter| == 1 && legacy.workspace.vCenterIP in legacy.virtualCenter)
    ensures after.failureDomains != [] ==>
              var w := legacy.workspace;
              && |after.failureDomains| == 1
              && var d := after.failureDomains[0];
              && d.server == w.vCenterIP && d.datacenter == w.datacenter && d.datastore == w.defaultDatastore
              && d.folder == w.folder && d.resourcePool == w.resourcePool
              && d.name == d.region == d.zone == ""
    ensures Start(before).vCenters == [] && after.failureDomains != [] ==>
              && |after.vCenters| == 1 && after.vCenters[0].server == legacy.workspace.vCenterIP
              && Joined(after.vCenters[0].datacenters) == legacy.virtualCenter[legacy.workspace.vCenterIP]
              && forall k :: 0 <= k < |after.vCenters[0].datacenters| ==> ',' !in after.vCenters[0].datacenters[k]
  {
    if legacy.workspace.vCenterIP in legacy.virtualCenter {
      SplitThenJoin(legacy.virtualCenter[legacy.workspace.vCenterIP]);
    }
  }

  /** So the policy of the workspace's vCenter has the target it had without failure domains; others have none. */
  lemma ConversionKeepsTarget(config: Config, legacy: LegacyConfig, before: Option<Spec>, after: Spec,
                              name: string, fallback: Option<StoragePolicy.Datastore>, server: string)
    requires config.legacy == Some(legacy) && Converted(Some(config), before, after)
    requires Start(before).failureDomains == [] && after.failureDomains != []
    ensures var w := legacy.workspace;
            var target := (w.datacenter, w.defaultDatastore);
            && StoragePolicy.TargetSet(StoragePolicy.Infra(name, [], Some(target)), w.vCenterIP) == {target}
            && StoragePolicy.TargetSet(StoragePolicy.Infra(name, after.failureDomains, fallback), server)
               == if server == w.vCenterIP then {target} else {}
  {
    WorkspaceBecomesDomain(config, legacy, before, after);
    var infra := StoragePolicy.Infra(name, after.failureDomains, fallback);
    assert after.failureDomains == [after.failureDomains[0]];
    forall ds ensures ds in StoragePolicy.TargetSet(infra, server) <==>
                        server == legacy.workspace.vCenterIP
                        && ds == (legacy.workspace.datacenter, legacy.workspace.defaultDatastore)
    {
      assert after.failureDomains[0] in infra.domains;
    }
  }
}
