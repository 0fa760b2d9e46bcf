/** Bringing the platform spec of an old cluster up to date from its legacy cloud configuration. */
module PlatformSpecConversion {
  import opened Platform

  datatype VCenterConfig = VCenterConfig(vCenterIP: string, datacenters: string)

  datatype Workspace = Workspace(
    vCenterIP: string, datacenter: string, folder: string, resourcePool: string, defaultDatastore: string)

  /** `virtualCenter` of the legacy copy maps a vCenter to its comma-separated datacenters. */
  datatype LegacyConfig = LegacyConfig(virtualCenter: map<string, string>, workspace: Workspace)

  datatype Config = Config(virtualCenter: map<string, VCenterConfig>, legacy: Option<LegacyConfig>)

  datatype Spec = Spec(vCenters: seq<VCenterSpec>, failureDomains: seq<FailureDomain>)

  /** `strings.Split(s, ",")`. */
  function Split(s: string): (parts: seq<string>)
    ensures |parts| > 0
  {
    if s == [] then [[]]
    else if s[0] == ',' then [[]] + Split(s[1..])
    else var rest := Split(s[1..]); [[s[0]] + rest[0]] + rest[1..]
  }

  /** `strings.Join(parts, ",")`. */
  function Joined(parts: seq<string>): string {
    if parts == [] then "" else if |parts| == 1 then parts[0] else parts[0] + "," + Joined(parts[1..])
  }

  /** Splitting cuts at every comma and nowhere else. */
  lemma {:induction false} SplitThenJoin(s: string)
    ensures Joined(Split(s)) == s
    ensures forall k :: 0 <= k < |Split(s)| ==> ',' !in Split(s)[k]
  {
    if s != [] {
      SplitThenJoin(s[1..]);
      var rest := Split(s[1..]);
      assert s == [s[0]] + s[1..];
      if s[0] == ',' {
        assert ([[]] + rest)[1..] == rest;
      } else {
        assert Split(s)[1..] == rest[1..];
        assert |rest| > 1 ==> Joined(rest) == rest[0] + "," + Joined(rest[1..]);
      }
    }
  }

  /** And it takes joined parts apart again. */
  lemma {:induction false} JoinThenSplit(parts: seq<string>)
    requires parts != [] && forall k :: 0 <= k < |parts| ==> ',' !in parts[k]
    ensures Split(Joined(parts)) == parts
    decreases |parts|
  {
    if |parts| == 1 {
      SplitPart(parts[0], "");
      assert parts[0] + "" == parts[0];
    } else {
      JoinThenSplit(parts[1..]);
      SplitPart(parts[0], "," + Joined(parts[1..]));
      var behind := "," + Joined(parts[1..]);
      assert behind[0] == ',' && behind[1..] == Joined(parts[1..]);
      assert Split(behind) == [[]] + parts[1..] && parts[0] + [] == parts[0];
      assert parts[0] + ("," + Joined(parts[1..])) == parts[0] + "," + Joined(parts[1..]);
      assert parts == [parts[0]] + parts[1..];
    }
  }

  lemma {:induction false} SplitPart(p: string, rest: string)
    requires ',' !in p
    ensures Split(p + rest) == [p + Split(rest)[0]] + Split(rest)[1..]
  {
    if p == [] {
      assert p + rest == rest && p + Split(rest)[0] == Split(rest)[0];
    } else {
      assert (p + rest)[1..] == p[1..] + rest;
      SplitPart(p[1..], rest);
      assert [p[0]] + (p[1..] + Split(rest)[0]) == p + Split(rest)[0];
    }
  }

  function Servers(vs: seq<VCenterSpec>): set<string> { set v | v in vs :: v.server }

  function Start(before: Option<Spec>): Spec { if before.Some? then before.value else Spec([], []) }

  function WorkspaceDomain(w: Workspace): FailureDomain {
    FailureDomain("", "", "", w.vCenterIP, w.datacenter, w.folder, w.resourcePool, w.defaultDatastore)
  }

  // ---------- what the conversion does, for any iteration order of the vCenter map ----------

  /** What walking the map in the order `keys` appends, given the servers known beforehand. */
  function AddedBy(m: map<string, VCenterConfig>, known: set<string>, keys: seq<string>): seq<VCenterSpec>
    requires forall k :: k in keys ==> k in m
  {
    if keys == [] then []
    else
      var before := AddedBy(m, known, keys[..|keys| - 1]);
      var ip := m[keys[|keys| - 1]].vCenterIP;
      if ip !in known && ip in m then before + [VCenterSpec(m[ip].vCenterIP, Split(m[ip].datacenters))] else before
  }

  ghost predicate IterationOrder(m: map<string, VCenterConfig>, keys: seq<string>) {
    && (forall k :: k in keys <==> k in m)
    && forall i, j :: 0 <= i < j < |keys| ==> keys[i] != keys[j]
  }

  ghost predicate Converted(config: Option<Config>, before: Option<Spec>, after: Spec) {
    var start := Start(before);
    if config.None? || config.value.legacy.None? then after == start
    else
      var m, legacy := config.value.virtualCenter, config.value.legacy.value;
      if start.vCenters != [] then
        && after.failureDomains
           == (if start.failureDomains == [] then [WorkspaceDomain(legacy.workspace)] else start.failureDomains)
        && exists keys :: IterationOrder(m, keys)
                          && after.vCenters == start.vCenters + AddedBy(m, Servers(start.vCenters), keys)
      else if |m| == 1 && legacy.workspace.vCenterIP in legacy.virtualCenter then
        && after.vCenters == [VCenterSpec(legacy.workspace.vCenterIP,
                                          Split(legacy.virtualCenter[legacy.workspace.vCenterIP]))]
        && after.failureDomains == start.failureDomains + [WorkspaceDomain(legacy.workspace)]
      else after == start
  }

  class Infrastructure {
    var vSphere: Option<Spec>

    method AddVCenter(m: map<string, VCenterConfig>, name: string)
      requires vSphere.Some?
      modifies this
      ensures vSphere.Some? && vSphere.value.failureDomains == old(vSphere).value.failureDomains
      ensures vSphere.value.vCenters == old(vSphere).value.vCenters
              + (if name in m then [VCenterSpec(m[name].vCenterIP, Split(m[name].datacenters))] else [])
    {
      if name in m {
        var spec := VCenterSpec(m[name].vCenterIP, Split(m[name].datacenters));
        vSphere := Some(vSphere.value.(vCenters := vSphere.value.vCenters + [spec]));
      }
    }

    method AddFailureDomain(w: Workspace)
      requires vSphere.Some?
      modifies this
      ensures vSphere == Some(Spec(old(vSphere).value.vCenters,
                                   old(vSphere).value.failureDomains + [WorkspaceDomain(w)]))
    {
      vSphere := Some(vSphere.value.(failureDomains := vSphere.value.failureDomains + [WorkspaceDomain(w)]));
    }

    method ConvertIntree(legacy: LegacyConfig)
      requires vSphere.Some?
      modifies this
      ensures vSphere.Some?
      ensures var w, s := legacy.workspace, old(vSphere).value;
              vSphere.value
              == if w.vCenterIP in legacy.virtualCenter
                 then Spec(s.vCenters + [VCenterSpec(w.vCenterIP, Split(legacy.virtualCenter[w.vCenterIP]))],
                           s.failureDomains + [WorkspaceDomain(w)])
                 else s
    {
      var w := legacy.workspace;
      if w.vCenterIP in legacy.virtualCenter {
        var spec := VCenterSpec(w.vCenterIP, Split(legacy.virtualCenter[w.vCenterIP]));
        vSphere := Some(vSphere.value.(vCenters := vSphere.value.vCenters + [spec]));
        AddFailureDomain(w);
      }
    }

    method ConvertToPlatformSpec(config: Option<Config>)
      modifies this
      ensures vSphere.Some? && Converted(config, old(vSphere), vSphere.value)
    {
      if vSphere.None? { vSphere := Some(Spec([], [])); }
      if config.None? || config.value.legacy.None? { return; }
      var m, legacy := config.value.virtualCenter, config.value.legacy.value;
      ghost var start := vSphere.value;
      if |vSphere.value.vCenters| != 0 {
        var known := Servers(vSphere.value.vCenters);
        var rest := m.Keys;
        ghost var walked: seq<string> := [];
        while rest != {}
          invariant rest <= m.Keys
          invariant forall k :: k in walked <==> k in m.Keys - rest
          invariant forall i, j :: 0 <= i < j < |walked| ==> walked[i] != walked[j]
          invariant vSphere.Some? && vSphere.value.failureDomains == start.failureDomains
          invariant vSphere.value.vCenters == start.vCenters + AddedBy(m, known, walked)
          decreases rest
        {
          var k :| k in rest;
          var ip := m[k].vCenterIP;
          assert (walked + [k])[..|walked|] == walked && k !in walked;
          if ip !in known { AddVCenter(m, ip); }
          rest, walked := rest - {k}, walked + [k];
        }
        assert IterationOrder(m, walked);
        if |vSphere.value.failureDomains| == 0 { AddFailureDomain(legacy.workspace); }
      } else if |m| == 1 {
        ConvertIntree(legacy);
      }
    }
  }

  // ---------- what is appended ----------

  /** The entry under `k` leads the walk to append something: its address is a key, and not known yet. */
  predicate LeadsToNew(m: map<string, VCenterConfig>, known: set<string>, k: string) {
    k in m && m[k].vCenterIP in m && m[k].vCenterIP !in known
  }

  lemma {:induction false} AddedServers(m: map<string, VCenterConfig>, known: set<string>, keys: seq<string>, s: string)
    requires forall k :: k in keys ==> k in m
    ensures s in Servers(AddedBy(m, known, keys)) <==>
              exists k :: k in keys && LeadsToNew(m, known, k) && m[m[k].vCenterIP].vCenterIP == s
    ensures AddedBy(m, known, keys) == [] <==> forall k :: k in keys ==> !LeadsToNew(m, known, k)
  {
    if keys != [] {
      var front, last := keys[..|keys| - 1], keys[|keys| - 1];
      AddedServers(m, known, front, s);
      assert keys == front + [last];
      var before, ip := AddedBy(m, known, front), m[last].vCenterIP;
      if LeadsToNew(m, known, last) {
        var v := VCenterSpec(m[ip].vCenterIP, Split(m[ip].datacenters));
        assert AddedBy(m, known, keys) == before + [v];
        assert Servers(before + [v]) == Servers(before) + {v.server};
      }
    }
  }

  ghost predicate Keyed(m: map<string, VCenterConfig>) {
    forall k :: k in m ==> m[k].vCenterIP == k
  }

  lemma {:induction false} AddedByMeans(m: map<string, VCenterConfig>, known: set<string>, keys: seq<string>)
    requires Keyed(m) && forall k :: k in keys ==> k in m
    requires forall i, j :: 0 <= i < j < |keys| ==> keys[i] != keys[j]
    ensures var added := AddedBy(m, known, keys);
            && (forall v :: v in added <==>
                 v.server in keys && v.server !in known && v == VCenterSpec(v.server, Split(m[v.server].datacenters)))
            && (forall i, j :: 0 <= i < j < |added| ==> added[i].server != added[j].server)
  {
    if keys != [] {
      var front, last := keys[..|keys| - 1], keys[|keys| - 1];
      AddedByMeans(m, known, front);
      assert keys == front + [last];
      assert last !in front;
      var before := AddedBy(m, known, front);
      forall i | 0 <= i < |before| ensures before[i].server != last { assert before[i] in before; }
    }
  }

  /**
   With a map keyed by address, the original vCenters stay in front and each missing one is appended exactly
   once, whatever the order.
   */
  lemma MissingVCentersAppendedOnce(config: Option<Config>, before: Option<Spec>, after: Spec)
    requires config.Some? && config.value.legacy.Some? && Keyed(config.value.virtualCenter)
    requires Start(before).vCenters != [] && Converted(config, before, after)
    ensures var m, given := config.value.virtualCenter, Start(before).vCenters;
            && given <= after.vCenters
            && var added := after.vCenters[|given|..];
            && (forall v :: v in added <==>
                 v.server in m && v.server !in Servers(given)
                 && v == VCenterSpec(v.server, Split(m[v.server].datacenters)))
            && (forall i, j :: 0 <= i < j < |added| ==> added[i].server != added[j].server)
  {
    var m, given := config.value.virtualCenter, Start(before).vCenters;
    var keys :| IterationOrder(m, keys) && after.vCenters == given + AddedBy(m, Servers(given), keys);
    AddedByMeans(m, Servers(given), keys);
    assert after.vCenters[|given|..] == AddedBy(m, Servers(given), keys);
  }

  // ---------- exactly when a second conversion changes nothing ----------

  /** No entry leads to anything new. */
  ghost predicate Idle(m: map<string, VCenterConfig>, known: set<string>) {
    forall k :: k in m && m[k].vCenterIP in m ==> m[k].vCenterIP in known
  }

  /** The walk appends a vCenter of this address. */
  ghost predicate Appends(m: map<string, VCenterConfig>, known: set<string>, address: string) {
    exists k :: LeadsToNew(m, known, k) && m[m[k].vCenterIP].vCenterIP == address
  }

  /** Every unknown address that has an entry is the address of something the walk appends. */
  ghost predicate Settles(m: map<string, VCenterConfig>, known: set<string>) {
    forall k :: LeadsToNew(m, known, k) ==> Appends(m, known, m[k].vCenterIP)
  }

  /**
   With given vCenters, every address the walk looks for is appended by it.  Without, a single entry must not
   lead away from the workspace.
   */
  ghost predicate Stable(config: Option<Config>, before: Option<Spec>) {
    config.Some? && config.value.legacy.Some? ==>
      var m, legacy, given := config.value.virtualCenter, config.value.legacy.value, Start(before).vCenters;
      if given != [] then Settles(m, Servers(given))
      else
        |m| == 1 && legacy.workspace.vCenterIP in legacy.virtualCenter ==>
          Idle(m, {legacy.workspace.vCenterIP})
  }

  lemma SecondWalkIsIdle(m: map<string, VCenterConfig>, vs: seq<VCenterSpec>, keys: seq<string>)
    requires IterationOrder(m, keys)
    ensures vs + AddedBy(m, Servers(vs), keys) == vs <==> Idle(m, Servers(vs))
  {
    AddedServers(m, Servers(vs), keys, "");
    assert Idle(m, Servers(vs)) <==> forall k :: k in keys ==> !LeadsToNew(m, Servers(vs), k);
    assert AddedBy(m, Servers(vs), keys) != [] ==> |vs + AddedBy(m, Servers(vs), keys)| > |vs|;
    assert vs + [] == vs;
  }

  lemma ServersAfterWalk(m: map<string, VCenterConfig>, given: seq<VCenterSpec>, keys: seq<string>, s: string)
    requires IterationOrder(m, keys)
    ensures s in Servers(given + AddedBy(m, Servers(given), keys)) <==>
              s in Servers(given) || Appends(m, Servers(given), s)
  {
    var added := AddedBy(m, Servers(given), keys);
    AddedServers(m, Servers(given), keys, s);
    assert Servers(given + added) == Servers(given) + Servers(added);
    assert forall k :: k in m ==> k in keys;
  }

  /** The walk over given vCenters leaves nothing new to find exactly for the stable inputs. */
  lemma WalkSettles(m: map<string, VCenterConfig>, given: seq<VCenterSpec>, keys: seq<string>)
    requires IterationOrder(m, keys)
    ensures Idle(m, Servers(given + AddedBy(m, Servers(given), keys))) <==> Settles(m, Servers(given))
  {
    var after := Servers(given + AddedBy(m, Servers(given), keys));
    forall s ensures s in after <==> s in Servers(given) || Appends(m, Servers(given), s) {
      ServersAfterWalk(m, given, keys, s);
    }
  }

  /** The second conversion appends nothing exactly when no entry leads to anything new. */
  lemma SecondConversion(config: Config, once: Spec, twice: Spec)
    requires config.legacy.Some? && once.vCenters != [] && once.failureDomains != []
    requires Converted(Some(config), Some(once), twice)
    ensures twice == once <==> Idle(config.virtualCenter, Servers(once.vCenters))
  {
    var m := config.virtualCenter;
    var keys :| IterationOrder(m, keys) && twice.vCenters == once.vCenters + AddedBy(m, Servers(once.vCenters), keys);
    SecondWalkIsIdle(m, once.vCenters, keys);
  }

  /** Converting twice, in any two iteration orders, is converting once: exactly for the stable inputs. */
  lemma IdempotentExactlyWhen(config: Option<Config>, before: Option<Spec>, once: Spec, twice: Spec)
    requires Converted(config, before, once) && Converted(config, Some(once), twice)
    ensures twice == once <==> Stable(config, before)
  {
    if config.Some? && config.value.legacy.Some? && once.vCenters != [] {
      var m, given := config.value.virtualCenter, Start(before).vCenters;
      SecondConversion(config.value, once, twice);
      if given != [] {
        var keys :| IterationOrder(m, keys) && once.vCenters == given + AddedBy(m, Servers(given), keys);
        WalkSettles(m, given, keys);
      } else {
        var ip := config.value.legacy.value.workspace.vCenterIP;
        assert once.vCenters[0].server == ip && Servers(once.vCenters) == {ip};
      }
    }
  }

  /** With a map keyed by address, only a workspace outside the map can make a difference. */
  lemma KeyedIsStableExactlyWhen(config: Config, before: Option<Spec>)
    requires Keyed(config.virtualCenter)
    ensures Stable(Some(config), before) <==>
              || config.legacy.None?
              || Start(before).vCenters != []
              || |config.virtualCenter| != 1
              || config.legacy.value.workspace.vCenterIP !in config.legacy.value.virtualCenter
              || config.legacy.value.workspace.vCenterIP in config.virtualCenter
  {
    var m := config.virtualCenter;
    if config.legacy.Some? && Start(before).vCenters == [] && |m| == 1 {
      var k :| k in m.Keys;
      OnlyKey(m, k);
    }
    if Start(before).vCenters != [] {
      var known := Servers(Start(before).vCenters);
      forall k | LeadsToNew(m, known, k) ensures Appends(m, known, m[k].vCenterIP) {
        assert m[m[k].vCenterIP].vCenterIP == k;
      }
    }
  }

  lemma OnlyKey(m: map<string, VCenterConfig>, k: string)
    requires |m| == 1 && k in m
    ensures m.Keys == {k}
  {
    assert |m.Keys - {k}| == 0;
  }

  // ---------- which configurations the loader produces ----------

  /** An INI file the legacy reader accepts: datacenters by section, the Global section, and the workspace. */
  datatype Ini = Ini(sections: map<string, string>, globalServer: string, globalDatacenters: string,
                     workspace: Workspace)

  /** `VSPHERE_VCENTER_<id>` with `VCENTER_<id>_SERVER`, empty if unset, and the datacenters that go with it. */
  datatype Override = Override(vCenter: string, server: string, datacenters: string)

  /** The vCenters of the file: a section is its own address, and the Global server counts as a section. */
  function FromIni(ini: Ini): map<string, VCenterConfig> {
    var sections := if ini.globalServer != "" && ini.globalServer !in ini.sections
                    then ini.sections[ini.globalServer := ini.globalDatacenters] else ini.sections;
    map k | k in sections :: VCenterConfig(k, if sections[k] == "" then ini.globalDatacenters else sections[k])
  }

  /** The environment, variable by variable. */
  function FromEnv(m: map<string, VCenterConfig>, env: seq<Override>): map<string, VCenterConfig> {
    if env == [] then m
    else
      var o := env[|env| - 1];
      var before := FromEnv(m, env[..|env| - 1]);
      if o.vCenter == "" then before
      else before[o.vCenter := VCenterConfig(if o.server == "" then o.vCenter else o.server, o.datacenters)]
  }

  /** `LoadConfig` of such a file; without a vCenter, or with an unnamed one, it fails. */
  function Load(ini: Ini, env: seq<Override>): Option<Config> {
    var m := FromIni(ini);
    if |m| == 0 || "" in m then None
    else Some(Config(FromEnv(m, env), Some(LegacyConfig(ini.sections, ini.workspace))))
  }

  /** The last word of the environment on this vCenter gives it another address. */
  ghost predicate Redirected(env: seq<Override>, k: string) {
    exists i :: 0 <= i < |env| && env[i].vCenter == k != "" && env[i].server != "" && env[i].server != k
                && forall j :: i < j < |env| ==> env[j].vCenter != k
  }

  lemma RedirectedLater(env: seq<Override>, k: string)
    requires env != []
    ensures var front, o := env[..|env| - 1], env[|env| - 1];
            Redirected(env, k) <==>
              if o.vCenter == k then k != "" && o.server != "" && o.server != k else Redirected(front, k)
  {
    var front, o := env[..|env| - 1], env[|env| - 1];
    assert env[|env| - 1] == o && forall i :: 0 <= i < |front| ==> front[i] == env[i];
    if o.vCenter != k && Redirected(front, k) {
      var i :| 0 <= i < |front| && front[i].vCenter == k != "" && front[i].server != "" && front[i].server != k
               && forall j :: i < j < |front| ==> front[j].vCenter != k;
      assert env[i] == front[i];
    }
  }

  lemma {:induction false} EnvKeeps(m: map<string, VCenterConfig>, env: seq<Override>, k: string)
    requires Keyed(m)
    ensures var r := FromEnv(m, env);
            && m.Keys <= r.Keys
            && (k in r && r[k].vCenterIP != k <==> Redirected(env, k))
  {
    if env != [] {
      EnvKeeps(m, env[..|env| - 1], k);
      RedirectedLater(env, k);
    }
  }

  /** A loaded map is keyed by address exactly when the environment redirects no vCenter; it covers the legacy copy. */
  lemma LoadedIsKeyedExactlyWhen(ini: Ini, env: seq<Override>)
    requires Load(ini, env).Some?
    ensures var config := Load(ini, env).value;
            && (Keyed(config.virtualCenter) <==> forall k :: !Redirected(env, k))
            && config.legacy.value.virtualCenter.Keys <= config.virtualCenter.Keys
  {
    forall k { EnvKeeps(FromIni(ini), env, k); }
  }

  /** So the conversion of every loaded legacy file is idempotent, unless the environment redirects a vCenter. */
  lemma LoadedConfigConvertsOnce(ini: Ini, env: seq<Override>, before: Option<Spec>, once: Spec, twice: Spec)
    requires Load(ini, env).Some? && forall k :: !Redirected(env, k)
    requires Converted(Load(ini, env), before, once) && Converted(Load(ini, env), Some(once), twice)
    ensures twice == once
  {
    LoadedIsKeyedExactlyWhen(ini, env);
    KeyedIsStableExactlyWhen(Load(ini, env).value, before);
    IdempotentExactlyWhen(Load(ini, env), before, once, twice);
  }

  /**
   Redirected vCenters can be appended again: the file lists "a" and "b", and the environment moves "a" to "b" and
   "b" to "c".  The walk looks for "b", appends what is filed there, which is "c", and so keeps looking for "b".
   */
  lemma RedirectedVCenterIsAddedTwice(w: Workspace, fd: FailureDomain)
    ensures var env := [Override("a", "b", ""), Override("b", "c", "")];
            var config := Load(Ini(map["a" := "", "b" := ""], "", "", w), env);
            var v, c := VCenterSpec("v", []), VCenterSpec("c", [[]]);
            && config.Some?
            && Converted(config, Some(Spec([v], [fd])), Spec([v, c], [fd]))
            && Converted(config, Some(Spec([v, c], [fd])), Spec([v, c, c], [fd]))
  {
    var ini, env := Ini(map["a" := "", "b" := ""], "", "", w), [Override("a", "b", ""), Override("b", "c", "")];
    var m := map["a" := VCenterConfig("b", ""), "b" := VCenterConfig("c", "")];
    assert "a" in FromIni(ini) && env[..1] == [Override("a", "b", "")] && env[..1][..0] == [];
    assert FromEnv(FromIni(ini), env[..1]) == FromIni(ini)["a" := VCenterConfig("b", "")];
    assert FromEnv(FromIni(ini), env) == m;
    var keys := ["a", "b"];
    assert IterationOrder(m, keys);
    assert keys[..1] == ["a"] && ["a"][..0] == [];
    var v, c := VCenterSpec("v", []), VCenterSpec("c", [[]]);
    assert AddedBy(m, Servers([v]), []) == [];
    assert AddedBy(m, Servers([v]), ["a"]) == [c];
    assert AddedBy(m, Servers([v]), keys) == [c];
    assert AddedBy(m, Servers([v, c]), []) == [];
    assert AddedBy(m, Servers([v, c]), ["a"]) == [c];
    assert AddedBy(m, Servers([v, c]), keys) == [c];
    assert [v] + [c] == [v, c] && [v, c] + [c] == [v, c, c];
  }
}
