/** Counting failure domains through nested maps: what `UpdateMetrics` reports. */
module Topology {
  import opened Platform

  type Groups = map<string, set<string>>

  datatype Gauges = Gauges(
    driverCategories: nat, infraCategories: nat,
    datacenters: nat, datastores: nat, regions: nat, zones: nat, vCenters: nat, failureDomains: nat)

  const ZONE_CATEGORY := "openshift-zone"
  const REGION_CATEGORY := "openshift-region"

  function InfraCategories(domains: Option<seq<FailureDomain>>): seq<string> {
    if domains.Some? && |domains.value| > 1 then [ZONE_CATEGORY, REGION_CATEGORY] else []
  }

  /** Infrastructure wins over the ClusterCSIDriver as soon as it has two failure domains. */
  function TopologyCategories(driver: seq<string>, domains: Option<seq<FailureDomain>>): seq<string> {
    var infra := InfraCategories(domains);
    if |infra| > 0 then infra else driver
  }

  // ---------- an independent account of what should be counted ----------

  ghost function Regions(ds: seq<FailureDomain>): set<string> { set d | d in ds && d.region != "" :: d.region }

  ghost function Zones(ds: seq<FailureDomain>): set<(string, string)> {
    set d | d in ds && d.region != "" && d.zone != "" :: (d.region, d.zone)
  }

  ghost function Datacenters(ds: seq<FailureDomain>): set<string> {
    set d | d in ds && d.datacenter != "" :: d.datacenter
  }

  ghost function Datastores(ds: seq<FailureDomain>): set<(string, string)> {
    set d | d in ds && d.datacenter != "" && d.datastore != "" :: (d.datacenter, d.datastore)
  }

  ghost function Servers(ds: seq<FailureDomain>): set<string> { set d | d in ds && d.server != "" :: d.server }

  /** The pairs a nested map holds. */
  ghost function Pairs(m: Groups): set<(string, string)> { set k, v | k in m && v in m[k] :: (k, v) }

  // ---------- cardinalities ----------

  lemma {:induction false} RowSize(k: string, vs: set<string>)
    ensures |set v | v in vs :: (k, v)| == |vs|
  {
    if vs != {} {
      var v :| v in vs;
      RowSize(k, vs - {v});
      assert (set x | x in vs :: (k, x)) == (set x | x in vs - {v} :: (k, x)) + {(k, v)};
    }
  }

  /** A row under a new key adds its size. */
  lemma AddRow(m: Groups, k: string, vs: set<string>)
    requires k !in m
    ensures |Pairs(m[k := vs])| == |Pairs(m)| + |vs|
  {
    var row := set v | v in vs :: (k, v);
    RowSize(k, vs);
    assert Pairs(m) !! row;
    assert Pairs(m[k := vs]) == Pairs(m) + row;
  }

  /** The sum of the per-key set sizes, in whatever order the map is walked, is the size of the pair set. */
  method SumSizes(m: Groups) returns (total: nat)
    ensures total == |Pairs(m)|
  {
    total := 0;
    var rest, walked: Groups := m.Keys, map[];
    assert Pairs(walked) == {};
    while rest != {}
      invariant rest <= m.Keys
      invariant walked == map k | k in m.Keys - rest :: m[k]
      invariant total == |Pairs(walked)|
      decreases rest
    {
      var k :| k in rest;
      AddRow(walked, k, m[k]);
      total := total + |m[k]|;
      rest, walked := rest - {k}, walked[k := m[k]];
    }
    assert walked == m;
  }

  /** One iteration of either grouping: an empty key is skipped, an empty value still creates its key. */
  method Note(m: Groups, key: string, value: string) returns (r: Groups)
    ensures r.Keys == m.Keys + (if key == "" then {} else {key})
    ensures Pairs(r) == Pairs(m) + (if key == "" || value == "" then {} else {(key, value)})
  {
    r := m;
    if key != "" {
      var values := if key in m then m[key] else {};
      if value != "" { values := values + {value}; }
      r := m[key := values];
      assert forall k, v :: (k, v) in Pairs(r) <==> (k, v) in Pairs(m) || (k == key && v == value && value != "");
    }
  }

  /** One more failure domain adds at most one element to each account. */
  lemma OneMoreDomain(ds: seq<FailureDomain>, d: FailureDomain)
    ensures Regions(ds + [d]) == Regions(ds) + (if d.region == "" then {} else {d.region})
    ensures Zones(ds + [d]) == Zones(ds) + (if d.region == "" || d.zone == "" then {} else {(d.region, d.zone)})
    ensures Datacenters(ds + [d]) == Datacenters(ds) + (if d.datacenter == "" then {} else {d.datacenter})
    ensures Datastores(ds + [d])
            == Datastores(ds) + (if d.datacenter == "" || d.datastore == "" then {} else {(d.datacenter, d.datastore)})
    ensures Servers(ds + [d]) == Servers(ds) + (if d.server == "" then {} else {d.server})
  {
    assert forall x :: x in ds + [d] <==> x in ds || x == d;
  }

  method UpdateMetrics(driver: seq<string>, domains: Option<seq<FailureDomain>>) returns (g: Gauges)
    ensures g.driverCategories == |driver|
    ensures g.infraCategories == if domains.Some? && |domains.value| > 1 then 2 else 0
    ensures domains.None? ==>
              g.datacenters == g.datastores == g.regions == g.zones == g.vCenters == g.failureDomains == 0
    ensures domains.Some? ==> var ds := domains.value;
              && g.regions == |Regions(ds)| && g.zones == |Zones(ds)|
              && g.datacenters == |Datacenters(ds)| && g.datastores == |Datastores(ds)|
              && g.vCenters == |Servers(ds)| && g.failureDomains == |ds|
  {
    if domains.None? {
      return Gauges(|driver|, |InfraCategories(domains)|, 0, 0, 0, 0, 0, 0);
    }
    var ds := domains.value;
    var datacenterDatastores: Groups, regionZones: Groups, vCenters: set<string> := map[], map[], {};
    for i := 0 to |ds|
      invariant regionZones.Keys == Regions(ds[..i]) && Pairs(regionZones) == Zones(ds[..i])
      invariant datacenterDatastores.Keys == Datacenters(ds[..i]) && Pairs(datacenterDatastores) == Datastores(ds[..i])
      invariant vCenters == Servers(ds[..i])
    {
      assert ds[..i + 1] == ds[..i] + [ds[i]];
      OneMoreDomain(ds[..i], ds[i]);
      regionZones := Note(regionZones, ds[i].region, ds[i].zone);
      datacenterDatastores := Note(datacenterDatastores, ds[i].datacenter, ds[i].datastore);
      if ds[i].server != "" { vCenters := vCenters + {ds[i].server}; }
    }
    assert ds[..|ds|] == ds;
    var datastoreCount := SumSizes(datacenterDatastores);
    var zoneCount := SumSizes(regionZones);
    g := Gauges(|driver|, |InfraCategories(domains)|, |datacenterDatastores|, datastoreCount,
                |regionZones|, zoneCount, |vCenters|, |ds|);
  }
}
