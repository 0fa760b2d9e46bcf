/** The storage class controller: a policy name cached per vCenter, one throttle shared by all of them. */
module StorageClass {
  import opened Platform
  import opened Backoff
  import opened StoragePolicy

  const CAP: nat := 30 * MINUTE

  /** State of the storage class as the administrator wants it. */
  datatype SCState = Managed | Unspecified | Unmanaged | Removed | Invalid

  predicate IsManaged(s: SCState) { s == Managed || s == Unspecified }

  /** One connection of one sync: its clock readings, jitter, and which of its vCenter's API calls fail. */
  datatype Visit = Visit(host: string, gate: int, done: int, jitter: nat, faults: nat -> bool)

  /** The vCenters, by host name. */
  type VCenters = map<string, VCenter>

  // ---------- the history of successful steps ----------

  /** A step that succeeded, with the policy name it returned: empty if the class was not Managed. */
  datatype Pass = Pass(host: string, policy: string)

  /** The policy name of the last successful step for `host`. */
  function LastPass(passes: seq<Pass>, host: string): Option<string> {
    if passes == [] then None
    else
      var last := passes[|passes| - 1];
      if last.host == host then Some(last.policy) else LastPass(passes[..|passes| - 1], host)
  }

  /** The policy name of the last successful step for any host. */
  function LastOverall(passes: seq<Pass>): string {
    if passes == [] then "" else passes[|passes| - 1].policy
  }

  /** The cache that the history explains. */
  function CacheOf(passes: seq<Pass>): map<string, string> {
    if passes == [] then map[]
    else CacheOf(passes[..|passes| - 1])[passes[|passes| - 1].host := passes[|passes| - 1].policy]
  }

  /** It holds the name of each vCenter's last successful step. */
  lemma {:induction false} CacheIsLastPass(passes: seq<Pass>, host: string)
    ensures LastPass(passes, host) == if host in CacheOf(passes) then Some(CacheOf(passes)[host]) else None
  {
    if passes != [] { CacheIsLastPass(passes[..|passes| - 1], host); }
  }

  /** Every step so far returned this policy name or none. */
  predicate Uniform(passes: seq<Pass>, policy: string) {
    passes == [] || (Uniform(passes[..|passes| - 1], policy) && passes[|passes| - 1].policy in {policy, ""})
  }

  /** Every step so far returned a name, as it does while the class is Managed. */
  predicate Gapless(passes: seq<Pass>) {
    passes == [] || (Gapless(passes[..|passes| - 1]) && passes[|passes| - 1].policy != "")
  }

  lemma {:induction false} UniformCache(passes: seq<Pass>, policy: string, host: string)
    requires Uniform(passes, policy) && host in CacheOf(passes)
    ensures CacheOf(passes)[host] in {policy, ""}
    ensures Gapless(passes) ==> CacheOf(passes)[host] == policy == LastOverall(passes)
  {
    var front := passes[..|passes| - 1];
    if passes[|passes| - 1].host != host { UniformCache(front, policy, host); }
  }

  lemma OnePassMore(passes: seq<Pass>, p: Pass, name: string)
    ensures CacheOf(passes + [p]) == CacheOf(passes)[p.host := p.policy] && LastOverall(passes + [p]) == p.policy
    ensures Uniform(passes + [p], name) <==> Uniform(passes, name) && p.policy in {name, ""}
    ensures Gapless(passes + [p]) <==> Gapless(passes) && p.policy != ""
  {
    assert (passes + [p])[..|passes|] == passes;
  }

  // ---------- the shared throttle ----------

  /** The pause after `k` earlier reconciliations: 2^k minutes, up to half an hour.  Nothing ever shortens it again. */
  function Pause(k: nat): nat { if Pow2(k) * MINUTE <= CAP then Pow2(k) * MINUTE else CAP }

  lemma PauseIsAMinute(k: nat)
    ensures MINUTE <= Pause(k) <= 1800
  {
    Pow2Grows(k);
  }

  /** No visit comes more than a minute after an earlier one finished. */
  ghost predicate Quick(visits: seq<Visit>) { forall j, k :: Soon(visits, j, k) }

  ghost predicate Soon(visits: seq<Visit>, j: int, k: int) {
    0 <= j < k < |visits| ==> visits[k].gate <= visits[j].done + MINUTE
  }

  /** The first visit after the next check is due, or the number of visits. */
  function FirstDue(visits: seq<Visit>, next: int): (k: nat)
    ensures k <= |visits| && (k < |visits| ==> visits[k].gate > next)
    ensures forall j :: 0 <= j < k ==> visits[j].gate <= next
  {
    if visits == [] || visits[0].gate > next then 0 else 1 + FirstDue(visits[1..], next)
  }

  /** In a quick sync the gate opens at the visit that is due, and at no other, once that postponed the next check. */
  lemma GateOpensOnce(visits: seq<Visit>, next: int, i: nat)
    requires Quick(visits) && i < |visits|
    ensures var due := FirstDue(visits, next);
            && (i < due ==> visits[i].gate <= next)
            && (i == due ==> visits[i].gate > next)
            && (i > due ==> visits[i].gate <= visits[due].done + MINUTE)
  {
    assert Soon(visits, FirstDue(visits, next), i);
  }

  /** What a quick sync of cached vCenters reconciles: the one visited when the check falls due, and no other. */
  ghost function DueOnly(visits: seq<Visit>, next: int): seq<string> {
    var k := FirstDue(visits, next);
    if k < |visits| then [visits[k].host] else []
  }

  /** How far a quick sync got before visit `i`: what it reconciled, and when the next check is due. */
  ghost predicate QuickSoFar(visits: seq<Visit>, i: nat, start: int, next: int, reconciled: seq<string>) {
    var due := FirstDue(visits, start);
    if i <= due then reconciled == [] && next == start
    else due < |visits| && reconciled == [visits[due].host] && next >= visits[due].done + MINUTE
  }

  lemma QuickStep(
      visits: seq<Visit>, i: nat, start: int, next: int, next': int, reconciled: seq<string>, throttled: bool)
    requires Quick(visits) && i < |visits| && QuickSoFar(visits, i, start, next, reconciled)
    requires throttled <==> visits[i].gate <= next
    requires if throttled then next' == next else next' >= visits[i].done + MINUTE
    ensures QuickSoFar(visits, i + 1, start, next', reconciled + if throttled then [] else [visits[i].host])
    ensures i != FirstDue(visits, start) ==> throttled
  {
    GateOpensOnce(visits, start, i);
    assert throttled ==> reconciled + [] == reconciled;
  }

  /** The check falls due in the middle of the sync. */
  ghost predicate FallsDueInside(visits: seq<Visit>, next: int) { 0 < FirstDue(visits, next) < |visits| }

  /** The next check after a quick sync: unchanged, or a minute or more after the reconciliation. */
  ghost predicate Postponed(visits: seq<Visit>, next: int, next': int) {
    var k := FirstDue(visits, next);
    if k < |visits| then next' >= visits[k].done + MINUTE else next' == next
  }

  /**
   One quick sync over cached vCenters: the one at whose visit the check falls due is reconciled.  Unless that is
   inside the sync, it is the first one or none.
   */
  ghost predicate QuickRound(visits: seq<Visit>, next: int, next': int, reconciled: seq<string>) {
    && reconciled == DueOnly(visits, next) && Postponed(visits, next, next')
    && (!FallsDueInside(visits, next) ==> reconciled == [] || (visits != [] && reconciled == [visits[0].host]))
  }

  // ---------- the cache and the vCenters ----------

  /** Every policy name in the cache exists in its vCenter. */
  ghost predicate Backed(cache: map<string, string>, vcs: VCenters) { forall host :: BackedAt(cache, vcs, host) }

  ghost predicate BackedAt(cache: map<string, string>, vcs: VCenters, host: string) {
    Cached(cache, host) && host in vcs ==> cache[host] in vcs[host].profiles
  }

  ghost predicate Connects(visits: seq<Visit>, vcs: VCenters) {
    forall k :: 0 <= k < |visits| ==> visits[k].host in vcs
  }

  /** No API call of any visit fails. */
  ghost predicate Smooth(visits: seq<Visit>) {
    forall k :: 0 <= k < |visits| ==> NoFaults(visits[k].faults, 0)
  }

  predicate Cached(cache: map<string, string>, host: string) { host in cache && cache[host] != "" }

  /** The first `n` of the visited vCenters are cached. */
  ghost predicate CachedIn(cache: map<string, string>, visits: seq<Visit>, n: nat)
    requires n <= |visits|
  {
    forall k :: 0 <= k < n ==> Cached(cache, visits[k].host)
  }

  ghost predicate QuickAndCached(visits: seq<Visit>, vcs: VCenters, cache: map<string, string>) {
    Connects(visits, vcs) && Quick(visits) && CachedIn(cache, visits, |visits|)
  }

  /** No cached name was lost. */
  ghost predicate CacheKept(a: map<string, string>, b: map<string, string>) {
    forall host :: Cached(a, host) ==> Cached(b, host)
  }

  lemma CachedMore(a: map<string, string>, b: map<string, string>, visits: seq<Visit>, i: nat)
    requires i < |visits| && CachedIn(a, visits, i) && CacheKept(a, b) && Cached(b, visits[i].host)
    ensures CachedIn(b, visits, i + 1)
  {}

  lemma StaysCached(a: map<string, string>, b: map<string, string>, visits: seq<Visit>)
    requires CacheKept(a, b) && CachedIn(a, visits, |visits|)
    ensures CachedIn(b, visits, |visits|)
  {}

  /** Storing a name that exists, after its vCenter only gained profiles, leaves every name backed. */
  lemma StaysBacked(cache: map<string, string>, vcs: VCenters, host: string, policy: string, after: VCenter)
    requires Backed(cache, vcs) && host in vcs && vcs[host].profiles <= after.profiles
    ensures Backed(cache, vcs[host := after])
    ensures policy == "" || policy in after.profiles ==> Backed(cache[host := policy], vcs[host := after])
  {
    var vcs' := vcs[host := after];
    forall h: string ensures BackedAt(cache, vcs', h) { assert BackedAt(cache, vcs, h); }
    var cache' := cache[host := policy];
    forall h: string | policy == "" || policy in after.profiles ensures BackedAt(cache', vcs', h) {
      assert BackedAt(cache, vcs, h);
    }
  }

  /** What outlives a step: the history, the cache it explains, and the vCenters. */
  datatype Memory = Memory(passes: seq<Pass>, cache: map<string, string>, vcs: VCenters)

  /**
   What every step keeps from `a` to `b`: one policy name, for a Managed class in every pass; the policies behind
   the cached names; and, for a Managed class, the cached names themselves.
   */
  ghost predicate Keeps(a: Memory, b: Memory, policy: string, managed: bool) {
    && a.passes <= b.passes && b.vcs.Keys == a.vcs.Keys
    && (Uniform(a.passes, policy) ==> Uniform(b.passes, policy))
    && (managed && Gapless(a.passes) ==> Gapless(b.passes))
    && (Backed(a.cache, a.vcs) ==> Backed(b.cache, b.vcs))
    && (managed ==> CacheKept(a.cache, b.cache))
  }

  lemma KeepsIsTransitive(a: Memory, b: Memory, c: Memory, policy: string, managed: bool)
    requires Keeps(a, b, policy, managed) && Keeps(b, c, policy, managed)
    ensures Keeps(a, c, policy, managed)
  {}

  lemma StepKeeps(a: Memory, host: string, policy: string, after: VCenter, ok: bool, name: string, managed: bool)
    requires host in a.vcs && a.vcs[host].profiles <= after.profiles
    requires ok ==> (policy in {name, ""} || !Uniform(a.passes, name)) && (managed ==> policy != "")
    requires ok ==> policy == "" || policy in after.profiles || !Backed(a.cache, a.vcs)
    ensures var vcs := a.vcs[host := after];
            Keeps(a, if ok then Memory(a.passes + [Pass(host, policy)], a.cache[host := policy], vcs)
                     else Memory(a.passes, a.cache, vcs), name, managed)
  {
    OnePassMore(a.passes, Pass(host, policy), name);
    if Backed(a.cache, a.vcs) { StaysBacked(a.cache, a.vcs, host, policy, after); }
  }

  class StorageClassController {
    var sharedPolicyName: string
    var vCenterStoragePolicy: map<string, string>
    var backoff: Backoff
    var nextCheck: int
    var lastCheck: int
    /** The stored conditions. */
    var degraded: bool
    var available: bool
    ghost var passes: seq<Pass>
    /** How often a policy was reconciled so far, successfully or not. */
    ghost var reconciliations: nat

    /** The caches are what the history of successful steps says, whatever failed since. */
    ghost predicate Valid()
      reads this
    {
      && vCenterStoragePolicy == CacheOf(passes) && sharedPolicyName == LastOverall(passes)
      && backoff == Steps(Default(CAP), reconciliations)
    }

    constructor (now: int)
      ensures Valid() && passes == [] && nextCheck == now && vCenterStoragePolicy == map[] && reconciliations == 0
    {
      sharedPolicyName, vCenterStoragePolicy, backoff := "", map[], Default(CAP);
      nextCheck, lastCheck, degraded, available, passes, reconciliations := now, 0, false, true, [], 0;
    }

    /** With one infrastructure name every cached name is that of its policy or empty, whatever became of the class. */
    lemma CachesHoldOneName(policy: string)
      requires Valid() && Uniform(passes, policy)
      ensures forall host :: host in vCenterStoragePolicy ==> vCenterStoragePolicy[host] in {policy, ""}
      ensures sharedPolicyName in {policy, ""}
    {
      forall host | host in vCenterStoragePolicy ensures vCenterStoragePolicy[host] in {policy, ""} {
        UniformCache(passes, policy, host);
      }
    }

    /** With a Managed class throughout, all cached names agree. */
    lemma CachesAgree(policy: string)
      requires Valid() && Uniform(passes, policy) && Gapless(passes)
      ensures forall host :: host in vCenterStoragePolicy ==> vCenterStoragePolicy[host] == policy
      ensures sharedPolicyName == policy || (sharedPolicyName == "" && vCenterStoragePolicy.Keys == {})
    {
      forall host | host in vCenterStoragePolicy ensures vCenterStoragePolicy[host] == policy == sharedPolicyName {
        UniformCache(passes, policy, host);
      }
    }

    /**
     Both caches and the vCenters together: when every vCenter visited is cached, a shared name is that of a policy
     which exists in each of them, whatever became of the class in between.
     */
    lemma AppliedPolicyExists(visits: seq<Visit>, vcs: VCenters, policy: string)
      requires Valid() && Uniform(passes, policy) && Backed(vCenterStoragePolicy, vcs)
      requires Connects(visits, vcs) && AllCached(visits) && sharedPolicyName != ""
      ensures sharedPolicyName == policy
      ensures forall k :: 0 <= k < |visits| ==> policy in vcs[visits[k].host].profiles
    {
      CachesHoldOneName(policy);
      forall k | 0 <= k < |visits| ensures policy in vcs[visits[k].host].profiles {
        assert Cached(vCenterStoragePolicy, visits[k].host) && BackedAt(vCenterStoragePolicy, vcs, visits[k].host);
      }
    }

    ghost function Remembered(vcs: VCenters): Memory
      reads this
    {
      Memory(passes, vCenterStoragePolicy, vcs)
    }

    predicate Throttled(v: Visit)
      reads this
    {
      v.gate <= nextCheck && Cached(vCenterStoragePolicy, v.host)
    }

    ghost predicate AllCached(visits: seq<Visit>)
      reads this
    {
      CachedIn(vCenterStoragePolicy, visits, |visits|)
    }

    /** `syncStoragePolicy` for one connection. */
    method SyncStoragePolicy(v: Visit, state: SCState, infra: Infra, vc: VCenter)
      returns (policy: string, ok: bool, after: VCenter)
      requires Valid() && (infra.domains == [] ==> infra.legacy.Some?)
      modifies this`backoff, this`nextCheck, this`lastCheck, this`reconciliations
      ensures Valid() && vc.profiles <= after.profiles && (NoFaults(v.faults, 0) ==> ok)
      ensures !IsManaged(state) ==> ok && policy == ""
      ensures IsManaged(state) && old(Throttled(v)) ==> ok && policy == vCenterStoragePolicy[v.host]
      ensures !IsManaged(state) || old(Throttled(v)) ==>
                nextCheck == old(nextCheck) && reconciliations == old(reconciliations) && after == vc
      ensures IsManaged(state) && !old(Throttled(v)) ==>
                && policy == (if ok then PolicyName(infra.name) else "")
                && (ok ==> Provisioned(after, infra, v.host))
                && reconciliations == old(reconciliations) + 1
                && nextCheck == v.done + Pause(old(reconciliations)) + v.jitter
    {
      if !IsManaged(state) { return "", true, vc; }
      if v.gate <= nextCheck && v.host in vCenterStoragePolicy && |vCenterStoragePolicy[v.host]| > 0 {
        return vCenterStoragePolicy[v.host], true, vc;
      }
      policy, ok, after := Reconcile(v.faults, infra, v.host, vc);
      BaseDelay(CAP, reconciliations);
      var delay := backoff.duration + v.jitter;
      backoff := Step(backoff);
      lastCheck := v.done;
      nextCheck := lastCheck + delay;
      reconciliations := reconciliations + 1;
      if !ok { policy := ""; }
    }

    /** Record a pass in both caches. */
    method Store(host: string, policy: string)
      requires Valid()
      modifies this`vCenterStoragePolicy, this`sharedPolicyName, this`passes
      ensures Valid() && passes == old(passes) + [Pass(host, policy)]
      ensures vCenterStoragePolicy == old(vCenterStoragePolicy)[host := policy] && sharedPolicyName == policy
    {
      vCenterStoragePolicy := vCenterStoragePolicy[host := policy];
      sharedPolicyName := policy;
      OnePassMore(passes, Pass(host, policy), policy);
      passes := passes + [Pass(host, policy)];
    }

    /** One iteration of the loop over the connections: only a success is stored. */
    method SyncConnection(v: Visit, state: SCState, infra: Infra, vc: VCenter)
      returns (policy: string, ok: bool, after: VCenter)
      requires Valid() && (infra.domains == [] ==> infra.legacy.Some?)
      modifies this`backoff, this`nextCheck, this`lastCheck, this`reconciliations, this`passes,
               this`vCenterStoragePolicy, this`sharedPolicyName
      ensures Valid() && passes == if ok then old(passes) + [Pass(v.host, policy)] else old(passes)
      ensures vCenterStoragePolicy == if ok then old(vCenterStoragePolicy)[v.host := policy]
                                      else old(vCenterStoragePolicy)
      ensures sharedPolicyName == if ok then policy else old(sharedPolicyName)
      ensures (IsManaged(state) && ok <==> policy != "") && (NoFaults(v.faults, 0) ==> ok)
      ensures policy in {PolicyName(infra.name), ""}
              || (old(Throttled(v)) && policy == old(vCenterStoragePolicy[v.host]))
      ensures IsManaged(state) && old(Throttled(v)) ==> ok && nextCheck == old(nextCheck) && after == vc
      ensures IsManaged(state) && !old(Throttled(v)) ==> nextCheck >= v.done + MINUTE
      ensures IsManaged(state) && !old(Throttled(v)) && ok ==> Provisioned(after, infra, v.host)
      ensures vc.profiles <= after.profiles
      ensures reconciliations == old(reconciliations) + if IsManaged(state) && !old(Throttled(v)) then 1 else 0
      ensures policy == "" || policy in after.profiles
              || (old(Throttled(v)) && policy == old(vCenterStoragePolicy[v.host]))
    {
      PauseIsAMinute(reconciliations);
      policy, ok, after := SyncStoragePolicy(v, state, infra, vc);
      if ok { Store(v.host, policy); }
    }

    /** One iteration, as the loop sees it: the history, the cache and the vCenters together. */
    method SyncNext(v: Visit, state: SCState, infra: Infra, vcs: VCenters) returns (ok: bool, after: VCenters)
      requires Valid() && v.host in vcs && (infra.domains == [] ==> infra.legacy.Some?)
      modifies this`backoff, this`nextCheck, this`lastCheck, this`reconciliations, this`passes,
               this`vCenterStoragePolicy, this`sharedPolicyName
      ensures Valid() && (NoFaults(v.faults, 0) ==> ok) && |passes| == |old(passes)| + (if ok then 1 else 0)
      ensures Keeps(old(Remembered(vcs)), Remembered(after), PolicyName(infra.name), IsManaged(state))
      ensures IsManaged(state) && ok ==> Cached(vCenterStoragePolicy, v.host) && sharedPolicyName != ""
      ensures IsManaged(state) && old(Throttled(v)) ==> ok && nextCheck == old(nextCheck)
      ensures IsManaged(state) && !old(Throttled(v)) ==> nextCheck >= v.done + MINUTE
      ensures reconciliations == old(reconciliations) + if IsManaged(state) && !old(Throttled(v)) then 1 else 0
    {
      if Uniform(passes, PolicyName(infra.name)) { CachesHoldOneName(PolicyName(infra.name)); }
      assert Backed(vCenterStoragePolicy, vcs) ==> BackedAt(vCenterStoragePolicy, vcs, v.host);
      var policy, vc;
      policy, ok, vc := SyncConnection(v, state, infra, vcs[v.host]);
      after := vcs[v.host := vc];
      StepKeeps(old(Remembered(vcs)), v.host, policy, vc, ok, PolicyName(infra.name), IsManaged(state));
    }

    /** The loop over the connections: it stops at the first failure. */
    method SyncPolicies(visits: seq<Visit>, state: SCState, infra: Infra, vcs: VCenters)
      returns (ok: bool, after: VCenters, ghost reconciled: seq<string>)
      requires Valid() && Connects(visits, vcs) && (infra.domains == [] ==> infra.legacy.Some?)
      modifies this`backoff, this`nextCheck, this`lastCheck, this`reconciliations, this`passes,
               this`vCenterStoragePolicy, this`sharedPolicyName
      ensures Valid() && (Smooth(visits) ==> ok)
      ensures |passes| <= |old(passes)| + |visits| && (ok <==> |passes| == |old(passes)| + |visits|)
      ensures Keeps(old(Remembered(vcs)), Remembered(after), PolicyName(infra.name), IsManaged(state))
      ensures IsManaged(state) && ok ==> AllCached(visits) && (visits != [] ==> sharedPolicyName != "")
      ensures reconciliations == old(reconciliations) + |reconciled| && (!IsManaged(state) ==> reconciled == [])
      ensures Quick(visits) && old(AllCached(visits)) && IsManaged(state) ==>
                reconciled == DueOnly(visits, old(nextCheck)) && Postponed(visits, old(nextCheck), nextCheck)
    {
      ok, after, reconciled := true, vcs, [];
      var i := 0;
      ghost var quick := Quick(visits) && AllCached(visits) && IsManaged(state);
      while ok && i < |visits|
        invariant Valid() && i <= |visits| && (Smooth(visits) ==> ok)
        invariant |passes| == |old(passes)| + if ok then i else i - 1
        invariant Keeps(old(Remembered(vcs)), Remembered(after), PolicyName(infra.name), IsManaged(state))
        invariant IsManaged(state) && ok ==>
                    CachedIn(vCenterStoragePolicy, visits, i) && (i > 0 ==> sharedPolicyName != "")
        invariant reconciliations == old(reconciliations) + |reconciled| && (!IsManaged(state) ==> reconciled == [])
        invariant quick ==> QuickSoFar(visits, i, old(nextCheck), nextCheck, reconciled)
        invariant quick && !ok ==> i > FirstDue(visits, old(nextCheck))
      {
        ghost var was, next, throttled := Remembered(after), nextCheck, Throttled(visits[i]);
        if quick { StaysCached(old(vCenterStoragePolicy), vCenterStoragePolicy, visits); }
        ok, after := SyncNext(visits[i], state, infra, after);
        KeepsIsTransitive(old(Remembered(vcs)), was, Remembered(after), PolicyName(infra.name), IsManaged(state));
        if IsManaged(state) && ok { CachedMore(was.cache, vCenterStoragePolicy, visits, i); }
        if quick { QuickStep(visits, i, old(nextCheck), next, nextCheck, reconciled, throttled); }
        reconciled := reconciled + if IsManaged(state) && !throttled then [visits[i].host] else [];
        i := i + 1;
      }
    }

    /** `syncStorageClass`: only a Managed class is applied, with the shared policy name. */
    method SyncStorageClass(state: SCState, setDefault: bool, apply: bool) returns (ok: bool, applied: seq<string>)
      ensures applied == if setDefault && IsManaged(state) then [sharedPolicyName] else []
      ensures ok <==> setDefault && state != Invalid && (state == Unmanaged || apply)
    {
      applied := [];
      if !setDefault { return false, applied; }
      match state {
        case Managed | Unspecified => ok, applied := apply, [sharedPolicyName];
        case Unmanaged => ok := true;
        case Removed => ok := apply;
        case Invalid => ok := false;
      }
    }

    /** Everything a sync does before it writes the status: the policies, then, unless a step failed, the class. */
    method SyncPoliciesAndClass(visits: seq<Visit>, state: SCState, infra: Infra, vcs: VCenters,
                                setDefault: bool, apply: bool)
      returns (ok: bool, after: VCenters, applied: seq<string>, ghost stepsOk: bool, ghost reconciled: seq<string>)
      requires Valid() && Connects(visits, vcs) && (infra.domains == [] ==> infra.legacy.Some?)
      modifies this`backoff, this`nextCheck, this`lastCheck, this`reconciliations, this`passes,
               this`vCenterStoragePolicy, this`sharedPolicyName
      ensures Valid() && (Smooth(visits) ==> stepsOk) && (stepsOk <==> |passes| == |old(passes)| + |visits|)
      ensures reconciliations == old(reconciliations) + |reconciled|
      ensures applied == if stepsOk && setDefault && IsManaged(state) then [sharedPolicyName] else []
      ensures ok <==> stepsOk && setDefault && state != Invalid && (state == Unmanaged || apply)
      ensures Keeps(old(Remembered(vcs)), Remembered(after), PolicyName(infra.name), IsManaged(state))
      ensures IsManaged(state) && stepsOk ==> AllCached(visits) && (visits != [] ==> sharedPolicyName != "")
      ensures Quick(visits) && old(AllCached(visits)) && IsManaged(state) ==>
                reconciled == DueOnly(visits, old(nextCheck)) && Postponed(visits, old(nextCheck), nextCheck)
    {
      ok, after, reconciled := SyncPolicies(visits, state, infra, vcs);
      applied, stepsOk := [], ok;
      if ok { ok, applied := SyncStorageClass(state, setDefault, apply); }
    }

    /**
     One sync.  `setDefault` and `apply` are the outcomes of the storage class calls, `write` that of the
     status write, whose failure is the only error the caller sees; `stepsOk` says that no policy step failed.  As
     long as one infrastructure name is used and nobody deletes a cached policy, the class is only ever applied with a
     policy that every vCenter has, even if it was unmanaged or removed in between.
     */
    method Sync(visits: seq<Visit>, state: SCState, infra: Infra, vcs: VCenters,
                setDefault: bool, apply: bool, write: bool)
      returns (failed: bool, after: VCenters, applied: seq<string>, ghost stepsOk: bool, ghost reconciled: seq<string>)
      requires Valid() && Connects(visits, vcs) && (infra.domains == [] ==> infra.legacy.Some?)
      modifies this
      ensures Valid() && failed == !write && (Smooth(visits) ==> stepsOk)
      ensures stepsOk <==> |passes| == |old(passes)| + |visits|
      ensures reconciliations == old(reconciliations) + |reconciled|
      ensures applied == if stepsOk && setDefault && IsManaged(state) then [sharedPolicyName] else []
      ensures write ==> available == !degraded
                        && (degraded <==> !stepsOk || !setDefault || state == Invalid || (state != Unmanaged && !apply))
      ensures !write ==> degraded == old(degraded) && available == old(available)
      ensures Keeps(old(Remembered(vcs)), Remembered(after), PolicyName(infra.name), IsManaged(state))
      ensures applied != [] && visits != [] && Uniform(old(passes), PolicyName(infra.name))
              && old(Backed(vCenterStoragePolicy, vcs)) ==>
                && applied == [PolicyName(infra.name)]
                && forall k :: 0 <= k < |visits| ==> PolicyName(infra.name) in after[visits[k].host].profiles
      ensures Quick(visits) && old(AllCached(visits)) && IsManaged(state) ==>
                reconciled == DueOnly(visits, old(nextCheck)) && Postponed(visits, old(nextCheck), nextCheck)
    {
      var ok;
      ok, after, applied, stepsOk, reconciled := SyncPoliciesAndClass(visits, state, infra, vcs, setDefault, apply);
      if applied != [] && visits != [] && Uniform(passes, PolicyName(infra.name))
         && Backed(vCenterStoragePolicy, after) {
        AppliedPolicyExists(visits, after, PolicyName(infra.name));
      }
      if write { degraded, available := !ok, ok; }
      failed := !write;
    }

    /** A sync like those of the run below. */
    method SyncQuickly(visits: seq<Visit>, state: SCState, infra: Infra, vcs: VCenters)
      returns (after: VCenters, ghost reconciled: seq<string>)
      requires Valid() && IsManaged(state) && (infra.domains == [] ==> infra.legacy.Some?)
      requires QuickAndCached(visits, vcs, vCenterStoragePolicy)
      modifies this
      ensures Valid() && after.Keys == vcs.Keys && CacheKept(old(vCenterStoragePolicy), vCenterStoragePolicy)
      ensures QuickRound(visits, old(nextCheck), nextCheck, reconciled)
    {
      var _, changed, _, _, due := Sync(visits, state, infra, vcs, true, true, true);
      after, reconciled := changed, due;
    }

    /**
     A run of quick syncs over cached vCenters: which of them are ever reconciled is decided by where the deadlines
     fall.  As long as none falls in the middle of a sync, the first vCenter is, and all others starve.
     */
    method SyncRepeatedly(syncs: seq<seq<Visit>>, state: SCState, infra: Infra, vcs: VCenters)
      returns (after: VCenters, ghost reconciled: seq<seq<string>>, ghost deadlines: seq<int>)
      requires Valid() && IsManaged(state) && (infra.domains == [] ==> infra.legacy.Some?)
      requires forall j :: 0 <= j < |syncs| ==> QuickAndCached(syncs[j], vcs, vCenterStoragePolicy)
      modifies this
      ensures Valid() && |reconciled| == |syncs| && |deadlines| == |syncs| + 1 && deadlines[0] == old(nextCheck)
      ensures forall j :: 0 <= j < |syncs| ==> QuickRound(syncs[j], deadlines[j], deadlines[j + 1], reconciled[j])
    {
      after, reconciled, deadlines := vcs, [], [nextCheck];
      for i := 0 to |syncs|
        invariant Valid() && |reconciled| == i && after.Keys == vcs.Keys
        invariant CacheKept(old(vCenterStoragePolicy), vCenterStoragePolicy)
        invariant |deadlines| == i + 1 && deadlines[0] == old(nextCheck) && deadlines[i] == nextCheck
        invariant forall j :: 0 <= j < i ==> QuickRound(syncs[j], deadlines[j], deadlines[j + 1], reconciled[j])
      {
        assert QuickAndCached(syncs[i], vcs, old(vCenterStoragePolicy));
        StaysCached(old(vCenterStoragePolicy), vCenterStoragePolicy, syncs[i]);
        ghost var due;
        after, due := SyncQuickly(syncs[i], state, infra, after);
        reconciled, deadlines := reconciled + [due], deadlines + [nextCheck];
      }
    }
  }
}
