/**
 Reconciling the storage policy of one vCenter: tag the datastores of its failure domains, then
 create the profile.  Each API call is atomic; whether call number n fails is up to `faults`.
 */
module StoragePolicy {
  import opened Platform
  import opened Ordering
  import opened AssociatedTypes

  /** A datastore, as the finder resolves it: datacenter and name. */
  type Datastore = (string, string)

  datatype Category = Category(id: nat, types: seq<string>)

  datatype Tag = Tag(name: string, id: nat, category: nat)

  /** The mutating calls, recorded in order whether or not they succeed. */
  datatype Kind = CreateCategory | UpdateCategory | CreateTag | UpdateTag | AttachTag(ds: Datastore) | CreateProfile

  datatype Attempt = Attempt(kind: Kind, ok: bool)

  /** The vCenter: `tags` in listing order, `profiles` with multiplicity, `calls` counting API calls so far. */
  datatype VCenter = VCenter(
    categories: map<string, Category>, tags: seq<Tag>, attached: set<(nat, Datastore)>,
    profiles: multiset<string>, nextId: nat, calls: nat, log: seq<Attempt>)

  /** What the reconciler reads: the infrastructure's name and failure domains, and the legacy workspace's datastore. */
  datatype Infra = Infra(name: string, domains: seq<FailureDomain>, legacy: Option<Datastore>)

  function PolicyName(infraName: string): (r: string)
    ensures |r| > |infraName| && "openshift-storage-policy-" <= r && r[25..] == infraName
  {
    "openshift-storage-policy-" + infraName
  }

  function CategoryName(infraName: string): (r: string)
    ensures |r| > |infraName| && "openshift-" <= r && r[10..] == infraName
  {
    "openshift-" + infraName
  }

  /** The first tag of that name in listing order, or the number of tags. */
  function TagIndex(tags: seq<Tag>, name: string): (i: nat)
    ensures i <= |tags|
    ensures i < |tags| ==> tags[i].name == name
    ensures forall j :: 0 <= j < i ==> tags[j].name != name
  {
    if tags == [] || tags[0].name == name then 0 else 1 + TagIndex(tags[1..], name)
  }

  /** Some tag of that name hangs on the datastore. */
  ghost predicate Tagged(vc: VCenter, name: string, ds: Datastore) {
    exists i :: 0 <= i < |vc.tags| && vc.tags[i].name == name && (vc.tags[i].id, ds) in vc.attached
  }

  /** The tag that a lookup by name returns hangs on the datastore. */
  ghost predicate FirstTagOn(vc: VCenter, name: string, ds: Datastore) {
    var i := TagIndex(vc.tags, name);
    i < |vc.tags| && (vc.tags[i].id, ds) in vc.attached
  }

  /** The tag that a lookup by name returns belongs to the category. */
  ghost predicate InCategory(vc: VCenter, category: string, name: string) {
    var i := TagIndex(vc.tags, name);
    i < |vc.tags| && category in vc.categories && vc.tags[i].category == vc.categories[category].id
  }

  /** Both, so the profile, which selects by category and tag, matches the datastore. */
  ghost predicate Matched(vc: VCenter, category: string, name: string, ds: Datastore) {
    FirstTagOn(vc, name, ds) && InCategory(vc, category, name)
  }

  /**
   What a run over `targets` that finds the policy in place does for one of them: a tagged datastore is skipped, so it
   is matched only by the right tag, in the right category; and the category is only repaired for untagged ones.
   */
  ghost predicate WillMatch(vc: VCenter, category: string, name: string, targets: set<Datastore>, ds: Datastore) {
    || !Tagged(vc, name, ds)
    || (FirstTagOn(vc, name, ds)
        && (InCategory(vc, category, name) || exists t :: t in targets && !Tagged(vc, name, t)))
  }

  /** No call from the `n`th on fails. */
  ghost predicate NoFaults(faults: nat -> bool, n: nat) { forall i :: n <= i ==> !faults(i) }

  /** No call in this range of call numbers fails. */
  ghost predicate Calm(faults: nat -> bool, from: nat, until: nat) { forall i :: from <= i < until ==> !faults(i) }

  /** The failing calls in a range of call numbers. */
  ghost function FaultsIn(faults: nat -> bool, from: nat, until: nat): set<nat> {
    set n | from <= n < until && faults(n)
  }

  /**
   Call number `starts[i]` begins the visit of the `i`th target, and the last entry ends the last visit.  A visit in
   which no call failed leaves its datastore tagged, whatever happened during the others.
   */
  ghost predicate VisitsCount(
    faults: nat -> bool, vc: VCenter, name: string, targets: seq<Datastore>, starts: seq<nat>)
  {
    && |starts| == |targets| + 1
    && forall i :: 0 <= i < |targets| ==>
         starts[i] <= starts[i + 1]
         && (Calm(faults, starts[i], starts[i + 1]) ==> Tagged(vc, name, targets[i]))
  }

  /** Nothing is ever taken away: `b` comes from `a` by calls that only add or repair. */
  ghost predicate Grown(a: VCenter, b: VCenter, category: string) {
    && a.attached <= b.attached && a.profiles <= b.profiles && a.log <= b.log && a.calls <= b.calls
    && |a.tags| <= |b.tags|
    && (forall i :: 0 <= i < |a.tags| ==> b.tags[i].name == a.tags[i].name && b.tags[i].id == a.tags[i].id)
    && (forall c :: c in a.categories ==> c in b.categories && b.categories[c].id == a.categories[c].id)
    && (forall c :: c in a.categories && c != category ==> b.categories[c] == a.categories[c])
  }

  class StoragePolicyAPI {
    const faults: nat -> bool
    const policyName: string
    const tagName: string
    const categoryName: string
    /** Whether the infrastructure has any failure domain, and those of this vCenter. */
    const zonal: bool
    const failureDomains: seq<Datastore>
    /** Datacenter and default datastore of the legacy workspace. */
    const legacy: Option<Datastore>
    var policyCreated: bool
    var vc: VCenter

    constructor (faults: nat -> bool, infra: Infra, server: string, vc: VCenter)
      ensures this.faults == faults && this.legacy == infra.legacy && this.vc == vc && !policyCreated
      ensures policyName == PolicyName(infra.name) && tagName == infra.name
      ensures categoryName == CategoryName(infra.name) && zonal == (|infra.domains| > 0)
      ensures forall ds :: ds in failureDomains <==>
                exists d :: d in infra.domains && d.server == server && ds == (d.datacenter, d.datastore)
    {
      var domains := infra.domains;
      var fds: seq<Datastore> := [];
      for i := 0 to |domains|
        invariant forall ds :: ds in fds <==>
                    exists d :: d in domains[..i] && d.server == server && ds == (d.datacenter, d.datastore)
      {
        assert domains[..i + 1] == domains[..i] + [domains[i]];
        if domains[i].server == server { fds := fds + [(domains[i].datacenter, domains[i].datastore)]; }
      }
      assert domains[..|domains|] == domains;
      this.faults, this.legacy, this.vc, policyCreated := faults, infra.legacy, vc, false;
      policyName, tagName := PolicyName(infra.name), infra.name;
      categoryName, zonal, failureDomains := CategoryName(infra.name), |domains| > 0, fds;
    }

    /** The datastores a run must tag.  Without failure domains the source dereferences the legacy configuration. */
    function Targets(): seq<Datastore>
      requires !zonal ==> legacy.Some?
    {
      if zonal then failureDomains else [legacy.value]
    }

    /** One API call: does it fail? */
    method Call() returns (failed: bool)
      modifies this`vc
      ensures failed == faults(old(vc.calls)) && vc == old(vc).(calls := old(vc.calls) + 1)
    {
      failed := faults(vc.calls);
      vc := vc.(calls := vc.calls + 1);
    }

    /** One mutating API call. */
    method Mutate(kind: Kind) returns (failed: bool)
      modifies this`vc
      ensures failed == faults(old(vc.calls))
      ensures vc == old(vc).(calls := old(vc.calls) + 1, log := old(vc.log) + [Attempt(kind, !failed)])
    {
      failed := Call();
      vc := vc.(log := vc.log + [Attempt(kind, !failed)]);
    }

    method CheckForExistingPolicy() returns (found: bool, ok: bool)
      modifies this`vc
      ensures vc == old(vc).(calls := old(vc.calls) + 1) && ok == !faults(old(vc.calls))
      ensures ok ==> found == (policyName in vc.profiles)
    {
      var failed := Call();
      found, ok := policyName in vc.profiles, !failed;
    }

    method CheckForTagOnDatastore(ds: Datastore) returns (found: bool)
      modifies this`vc
      ensures vc == old(vc).(calls := old(vc.calls) + 1)
      ensures found <==> !faults(old(vc.calls)) && Tagged(vc, tagName, ds)
    {
      var failed := Call();
      if failed { return false; }
      found := false;
      for i := 0 to |vc.tags|
        invariant found <==> exists j :: 0 <= j < i && vc.tags[j].name == tagName && (vc.tags[j].id, ds) in vc.attached
        invariant vc == old(vc).(calls := old(vc.calls) + 1)
      {
        if (vc.tags[i].id, ds) in vc.attached && vc.tags[i].name == tagName { return true; }
      }
    }

    /** Make sure the category exists with all required types; `id` is its identifier. */
    method EnsureCategory() returns (id: nat, ok: bool)
      modifies this`vc
      ensures Grown(old(vc), vc, categoryName)
      ensures vc.tags == old(vc.tags) && vc.attached == old(vc.attached) && vc.profiles == old(vc.profiles)
      ensures NoNewProfile(old(vc), vc)
      ensures Calm(faults, old(vc.calls), vc.calls) ==> ok
      ensures ok ==> categoryName in vc.categories && vc.categories[categoryName].id == id
                     && PrefixedSet(REQUIRED_TYPES) <= Elements(vc.categories[categoryName].types)
      ensures ok && categoryName in old(vc.categories) ==>
                Canonical(old(vc.categories[categoryName].types), vc.categories[categoryName].types)
      ensures ok && categoryName !in old(vc.categories) ==>
                Elements(vc.categories[categoryName].types) == PrefixedSet(REQUIRED_TYPES)
    {
      var failed := Call();
      if failed { return 0, false; }
      if categoryName !in vc.categories {
        var types := AppendPrefix(REQUIRED_TYPES);
        failed := Mutate(CreateCategory);
        if failed { return 0, false; }
        id := vc.nextId;
        vc := vc.(categories := vc.categories[categoryName := Category(id, types)], nextId := id + 1);
      } else {
        var category := vc.categories[categoryName];
        var types := UpdateAssociatedTypes(category.types);
        failed := Mutate(UpdateCategory);
        if failed { return 0, false; }
        id := category.id;
        vc := vc.(categories := vc.categories[categoryName := Category(id, types)]);
      }
      ok := true;
    }

    /** Make sure a tag of our name exists and the first of them is in category `category`; `id` is its identifier. */
    method EnsureTag(category: nat) returns (id: nat, ok: bool)
      modifies this`vc
      ensures Grown(old(vc), vc, categoryName)
      ensures vc.categories == old(vc.categories) && vc.attached == old(vc.attached) && vc.profiles == old(vc.profiles)
      ensures NoNewProfile(old(vc), vc)
      ensures Calm(faults, old(vc.calls), vc.calls) ==> ok
      ensures !ok ==> vc.tags == old(vc.tags)
      ensures ok ==> var i := TagIndex(vc.tags, tagName); i < |vc.tags| && vc.tags[i] == Tag(tagName, id, category)
      ensures forall i :: 0 <= i < |old(vc.tags)| && i != TagIndex(old(vc.tags), tagName) ==>
                vc.tags[i] == old(vc.tags)[i]
      ensures TagIndex(old(vc.tags), tagName) < |old(vc.tags)|
              ==> |vc.tags| == |old(vc.tags)| && TagIndex(vc.tags, tagName) == TagIndex(old(vc.tags), tagName)
      ensures |vc.tags| <= |old(vc.tags)| + 1
    {
      var failed := Call();
      if failed { return 0, false; }
      var i := TagIndex(vc.tags, tagName);
      if i == |vc.tags| {
        failed := Mutate(CreateTag);
        if failed { return 0, false; }
        id := vc.nextId;
        vc := vc.(tags := vc.tags + [Tag(tagName, id, category)], nextId := id + 1);
      } else {
        id := vc.tags[i].id;
        if vc.tags[i].category != category {
          failed := Mutate(UpdateTag);
          if failed { return 0, false; }
          vc := vc.(tags := vc.tags[i := Tag(tagName, id, category)]);
        }
      }
      TagIndexIs(vc.tags, tagName, i);
      ok := true;
    }

    /** Attach the tag with this identifier. */
    method AttachTag(id: nat, ds: Datastore) returns (ok: bool)
      modifies this`vc
      ensures ok == !faults(old(vc.calls))
      ensures vc == old(vc).(calls := old(vc.calls) + 1, log := old(vc.log) + [Attempt(Kind.AttachTag(ds), ok)],
                             attached := old(vc.attached) + if ok then {(id, ds)} else {})
    {
      var failed := Mutate(Kind.AttachTag(ds));
      if !failed { vc := vc.(attached := vc.attached + {(id, ds)}); }
      ok := !failed;
    }

    method CreateOrUpdateTag(ds: Datastore) returns (ok: bool)
      modifies this`vc
      ensures Grown(old(vc), vc, categoryName) && vc.profiles == old(vc.profiles)
      ensures NoNewProfile(old(vc), vc)
      ensures Calm(faults, old(vc.calls), vc.calls) ==> ok
      ensures ok ==> AttachedIn(vc.log[|old(vc.log)|..], ds) && TagStep(old(vc), vc, categoryName, tagName, ds)
      ensures forall d :: Matched(old(vc), categoryName, tagName, d) ==> Matched(vc, categoryName, tagName, d)
    {
      var category, categoryOk := EnsureCategory();
      if !categoryOk { return false; }
      ghost var categorised := vc;
      MatchesSurvive(old(vc), vc, categoryName, tagName);
      var id, tagOk := EnsureTag(category);
      MatchesSurvive(categorised, vc, categoryName, tagName);
      if !tagOk { return false; }
      ghost var tagged := vc;
      ok := AttachTag(id, ds);
      Attaching(old(vc), tagged, vc, categoryName, tagName, ds, ok);
    }

    method AttachTags(ds: Datastore) returns (ok: bool)
      modifies this`vc
      ensures Grown(old(vc), vc, categoryName) && vc.profiles == old(vc.profiles)
      ensures NoNewProfile(old(vc), vc)
      ensures Calm(faults, old(vc.calls), vc.calls) ==> ok
      ensures ok ==> Tagged(vc, tagName, ds)
      ensures ok && !policyCreated ==> Matched(vc, categoryName, tagName, ds) && AttachedIn(vc.log[|old(vc.log)|..], ds)
      ensures forall d :: Matched(old(vc), categoryName, tagName, d) ==> Matched(vc, categoryName, tagName, d)
      ensures NoFaults(faults, old(vc.calls)) && policyCreated && Tagged(old(vc), tagName, ds)
              ==> vc == old(vc).(calls := vc.calls)
      ensures NoFaults(faults, old(vc.calls)) && !Tagged(old(vc), tagName, ds)
              ==> TagStep(old(vc), vc, categoryName, tagName, ds)
    {
      var failed := Call();
      if failed { return false; }
      if policyCreated {
        var found := CheckForTagOnDatastore(ds);
        if found { return true; }
      }
      ghost var was := vc;
      ok := CreateOrUpdateTag(ds);
      if ok { TagStepFrom(old(vc), was, vc, categoryName, tagName, ds); }
    }

    method CreateStorageProfile() returns (ok: bool)
      modifies this`vc
      ensures ok == !faults(old(vc.calls))
      ensures vc == old(vc).(calls := old(vc.calls) + 1, log := old(vc.log) + [Attempt(CreateProfile, ok)],
                             profiles := old(vc.profiles) + if ok then multiset{policyName} else multiset{})
    {
      var failed := Mutate(CreateProfile);
      if !failed { vc := vc.(profiles := vc.profiles + multiset{policyName}); }
      ok := !failed;
    }

    /** The loop over the failure domains keeps going after an error: each visit counts by itself. */
    method TagAll(targets: seq<Datastore>) returns (ok: bool, ghost starts: seq<nat>)
      modifies this`vc
      ensures VisitsCount(faults, vc, tagName, targets, starts)
      ensures starts[0] == old(vc.calls) && starts[|targets|] == vc.calls
      ensures TaggedAll(old(vc), vc, categoryName, tagName, targets, policyCreated, ok)
      ensures NoFaults(faults, old(vc.calls)) ==> ok
      ensures NoFaults(faults, old(vc.calls)) && policyCreated
              && (forall ds :: ds in targets ==> Tagged(old(vc), tagName, ds))
              ==> vc == old(vc).(calls := vc.calls)
      ensures NoFaults(faults, old(vc.calls)) && policyCreated ==>
                forall ds :: ds in targets ==>
                  (Matched(vc, categoryName, tagName, ds)
                   <==> WillMatch(old(vc), categoryName, tagName, Members(targets), ds))
    {
      ok, starts := true, [vc.calls];
      for i := 0 to |targets|
        invariant TagProgress(faults, old(vc), vc, categoryName, tagName, targets[..i], policyCreated, ok, starts)
      {
        ghost var was := vc;
        var tagged := AttachTags(targets[i]);
        TagProgressStep(faults, old(vc), was, vc, categoryName, tagName, targets[..i], targets[i], policyCreated, ok,
                        tagged, starts);
        assert targets[..i + 1] == targets[..i] + [targets[i]];
        ok, starts := ok && tagged, starts + [vc.calls];
      }
      assert targets[..|targets|] == targets;
      if NoFaults(faults, old(vc.calls)) && policyCreated {
        TracksMeans(old(vc), vc, categoryName, tagName, Members(targets));
      }
    }

    /** What one run, from `before` to the present, promises whether or not calls fail. */
    ghost predicate RunKeepsOrder(before: VCenter, targets: seq<Datastore>, created: bool)
      reads this
    {
      && Grown(before, vc, categoryName)
      && (vc.profiles == before.profiles
          || (!created && policyName !in before.profiles && vc.profiles == before.profiles + multiset{policyName}))
      && forall i :: |before.log| <= i < |vc.log| && vc.log[i].kind == CreateProfile ==>
           && i == |vc.log| - 1 && !created && policyName !in before.profiles
           && forall ds :: ds in targets ==> AttachedIn(vc.log[|before.log|..i], ds)
    }

    method CreateZonalStoragePolicy() returns (name: string, ok: bool, ghost starts: seq<nat>)
      requires policyCreated || policyName !in vc.profiles
      modifies this`vc
      ensures VisitsCount(faults, vc, tagName, failureDomains, starts)
      ensures starts[0] == old(vc.calls) && starts[|failureDomains|] <= vc.calls
      ensures name == policyName && RunKeepsOrder(old(vc), failureDomains, policyCreated)
      ensures NoFaults(faults, old(vc.calls)) ==> ok
      ensures ok ==> forall ds :: ds in failureDomains ==> Tagged(vc, tagName, ds)
      ensures ok && !policyCreated ==>
                policyName in vc.profiles
                && forall ds :: ds in failureDomains ==> Matched(vc, categoryName, tagName, ds)
      ensures NoFaults(faults, old(vc.calls)) && policyCreated
              && (forall ds :: ds in failureDomains ==> Tagged(old(vc), tagName, ds))
              ==> vc == old(vc).(calls := vc.calls)
      ensures NoFaults(faults, old(vc.calls)) && policyCreated ==>
                forall ds :: ds in failureDomains ==>
                  (Matched(vc, categoryName, tagName, ds)
                   <==> WillMatch(old(vc), categoryName, tagName, Members(failureDomains), ds))
    {
      name := policyName;
      ok, starts := TagAll(failureDomains);
      if !ok || policyCreated { return; }
      ghost var was := vc;
      ok := CreateStorageProfile();
      VisitsStillCount(faults, was, vc, categoryName, tagName, failureDomains, starts);
      ProfileComesLast(old(vc), was, vc, failureDomains);
      forall ds | ds in failureDomains ensures Tagged(vc, tagName, ds) {
        GrownKeepsTagged(was, vc, categoryName, tagName, ds);
      }
    }

    /** The tail of `createStoragePolicy` for clusters without failure domains. */
    method CreateUnzonedStoragePolicy() returns (name: string, ok: bool, ghost starts: seq<nat>)
      requires legacy.Some? && (policyCreated || policyName !in vc.profiles)
      modifies this`vc
      ensures VisitsCount(faults, vc, tagName, [legacy.value], starts)
      ensures starts[0] == old(vc.calls) && starts[1] <= vc.calls
      ensures name == policyName && RunKeepsOrder(old(vc), [legacy.value], policyCreated)
      ensures NoFaults(faults, old(vc.calls)) ==> ok
      ensures ok ==> Tagged(vc, tagName, legacy.value)
      ensures ok && !policyCreated ==> policyName in vc.profiles && Matched(vc, categoryName, tagName, legacy.value)
      ensures NoFaults(faults, old(vc.calls)) && policyCreated && Tagged(old(vc), tagName, legacy.value)
              ==> vc == old(vc).(calls := vc.calls)
      ensures NoFaults(faults, old(vc.calls)) && policyCreated ==>
                (Matched(vc, categoryName, tagName, legacy.value)
                 <==> WillMatch(old(vc), categoryName, tagName, {legacy.value}, legacy.value))
    {
      name := policyName;
      ok := AttachTags(legacy.value);
      starts := [old(vc.calls), vc.calls];
      if Tagged(old(vc), tagName, legacy.value) && vc == old(vc).(calls := vc.calls) {
        UnchangedTags(old(vc), vc, categoryName, tagName);
      }
      if !ok || policyCreated { return; }
      ghost var was := vc;
      ok := CreateStorageProfile();
      ProfileComesLast(old(vc), was, vc, [legacy.value]);
      GrownKeepsTagged(was, vc, categoryName, tagName, legacy.value);
    }

    /**
     One run of the reconciler.  It succeeds when no call fails; success leaves every target tagged and
     the profile present; the profile is created at most once, last, after every target was attached in
     this very run; and with nothing left to do no mutating call is attempted.
     */
    method CreateStoragePolicy() returns (name: string, ok: bool, ghost starts: seq<nat>)
      requires !zonal ==> legacy.Some?
      modifies this
      ensures !faults(old(vc.calls)) ==>
                && VisitsCount(faults, vc, tagName, Targets(), starts)
                && starts[0] == old(vc.calls) + 1 && starts[|Targets()|] <= vc.calls
      ensures name == policyName && RunKeepsOrder(old(vc), Targets(), old(policyCreated))
      ensures policyCreated == (old(policyCreated) || (!faults(old(vc.calls)) && policyName in old(vc.profiles)))
      ensures NoFaults(faults, old(vc.calls)) ==> ok
      ensures ok ==> forall ds :: ds in Targets() ==> Tagged(vc, tagName, ds)
      ensures ok ==> (policyName in vc.profiles <==> policyName in old(vc.profiles) || !old(policyCreated))
      ensures ok && !policyCreated ==> forall ds :: ds in Targets() ==> Matched(vc, categoryName, tagName, ds)
      ensures NoFaults(faults, old(vc.calls)) ==>
                forall ds :: ds in Targets() ==>
                  (Matched(vc, categoryName, tagName, ds)
                   <==> !policyCreated || WillMatch(old(vc), categoryName, tagName, Members(Targets()), ds))
      ensures NoFaults(faults, old(vc.calls)) && policyName in old(vc.profiles)
              && (forall ds :: ds in Targets() ==> Tagged(old(vc), tagName, ds))
              ==> vc == old(vc).(calls := vc.calls)
    {
      var found, queried := CheckForExistingPolicy();
      if !queried { return policyName, false, []; }
      if found { policyCreated := true; }
      UnchangedTags(old(vc), vc, categoryName, tagName);
      SameFate(old(vc), vc, categoryName, tagName, Members(Targets()));
      assert !zonal ==> Members(Targets()) == {legacy.value};
      if zonal {
        name, ok, starts := CreateZonalStoragePolicy();
      } else {
        name, ok, starts := CreateUnzonedStoragePolicy();
      }
    }
  }

  /** The datastores of this vCenter that the policy should match. */
  ghost function TargetSet(infra: Infra, server: string): set<Datastore> {
    if infra.domains != [] then set d | d in infra.domains && d.server == server :: (d.datacenter, d.datastore)
    else if infra.legacy.Some? then {infra.legacy.value} else {}
  }

  /** The policy exists, and every datastore of this vCenter that it should match carries the tag. */
  ghost predicate Provisioned(vc: VCenter, infra: Infra, server: string) {
    && PolicyName(infra.name) in vc.profiles
    && forall ds :: ds in TargetSet(infra, server) ==> Tagged(vc, infra.name, ds)
  }

  /** The datastores that should carry the tag and do not. */
  ghost function Lost(vc: VCenter, infra: Infra, server: string): set<Datastore> {
    set ds | ds in TargetSet(infra, server) && !Tagged(vc, infra.name, ds)
  }

  /** The profile matches the datastore. */
  ghost predicate Selected(vc: VCenter, infra: Infra, ds: Datastore) {
    Matched(vc, CategoryName(infra.name), infra.name, ds)
  }

  /** A failure-free run from `vc` ends with the datastore selected. */
  ghost predicate WillSelect(vc: VCenter, infra: Infra, server: string, ds: Datastore) {
    || PolicyName(infra.name) !in vc.profiles
    || WillMatch(vc, CategoryName(infra.name), infra.name, TargetSet(infra, server), ds)
  }

  /**
   One run with a fresh client, from any state of the vCenter.  Success means that everything is in place, and only
   a failing call stands in its way; the profile is never created twice; and if everything is in place, nothing is
   changed or even attempted.  Which datastores the profile then selects is known beforehand.  If the policy can be
   looked up, no more datastores are left untagged than calls failed.
   */
  method Reconcile(faults: nat -> bool, infra: Infra, server: string, vc: VCenter)
    returns (policy: string, ok: bool, after: VCenter)
    requires infra.domains == [] ==> infra.legacy.Some?
    ensures policy == PolicyName(infra.name)
    ensures ok ==> Provisioned(after, infra, server)
    ensures NoFaults(faults, vc.calls) ==> ok
    ensures vc.profiles <= after.profiles && vc.calls <= after.calls
    ensures vc.profiles[policy] <= 1 ==> after.profiles[policy] <= 1
    ensures NoFaults(faults, vc.calls) && Provisioned(vc, infra, server) ==> after == vc.(calls := after.calls)
    ensures NoFaults(faults, vc.calls) ==>
              forall ds :: ds in TargetSet(infra, server) ==>
                (Selected(after, infra, ds) <==> WillSelect(vc, infra, server, ds))
    ensures !faults(vc.calls) ==>
              |Lost(after, infra, server)| <= |FaultsIn(faults, vc.calls + 1, after.calls)|
  {
    var api := new StoragePolicyAPI(faults, infra, server, vc);
    assert Members(api.Targets()) == TargetSet(infra, server);
    assert forall ds :: ds in TargetSet(infra, server) <==> ds in api.Targets();
    ghost var starts;
    policy, ok, starts := api.CreateStoragePolicy();
    after := api.vc;
    if !faults(vc.calls) {
      LostAreFew(faults, after, infra.name, api.Targets(), starts);
      assert Lost(after, infra, server) == Untagged(after, infra.name, api.Targets());
      SubsetSize(FaultsIn(faults, vc.calls + 1, starts[|api.Targets()|]), FaultsIn(faults, vc.calls + 1, after.calls));
    }
  }

  /**
   The policy is there, and a tag of the right name in another category hangs on the datastore: no failure-free run
   ever makes the profile select it, for the operator only asks for the name.
   */
  lemma ForeignTagIsNeverReplaced(vc: VCenter, infra: Infra, server: string, ds: Datastore, id: nat, category: nat)
    requires PolicyName(infra.name) in vc.profiles && vc.tags == [Tag(infra.name, id, category)]
    requires TargetSet(infra, server) == {ds} && (id, ds) in vc.attached
    requires CategoryName(infra.name) in vc.categories ==> vc.categories[CategoryName(infra.name)].id != category
    ensures Provisioned(vc, infra, server) && !Selected(vc, infra, ds) && !WillSelect(vc, infra, server, ds)
  {
    assert vc.tags[0].name == infra.name;
    assert Tagged(vc, infra.name, ds);
  }

  /**
   Whatever a number of runs, each with a fresh client and any failures, did to the vCenter: the next
   run without failures converges, and the one after that attempts no mutating call.
   */
  method ConvergeThenIdle(runs: nat, faults: nat -> bool, infra: Infra, server: string, start: VCenter)
    returns (messy: VCenter, settled: VCenter, idle: VCenter)
    requires infra.domains == [] ==> infra.legacy.Some?
    ensures NoFaults(faults, messy.calls) ==>
              Provisioned(settled, infra, server) && idle == settled.(calls := idle.calls)
    ensures start.profiles[PolicyName(infra.name)] <= 1 ==> idle.profiles[PolicyName(infra.name)] <= 1
  {
    messy := start;
    for i := 0 to runs
      invariant start.profiles[PolicyName(infra.name)] <= 1 ==> messy.profiles[PolicyName(infra.name)] <= 1
    {
      var _, _, next := Reconcile(faults, infra, server, messy);
      messy := next;
    }
    var _, ok, first := Reconcile(faults, infra, server, messy);
    settled := first;
    var _, again, second := Reconcile(faults, infra, server, settled);
    idle := second;
  }

  lemma ProfileComesLast(before: VCenter, tagged: VCenter, after: VCenter, targets: seq<Datastore>)
    requires before.log <= tagged.log && NoNewProfile(before, tagged)
    requires |after.log| == |tagged.log| + 1 && tagged.log <= after.log
    requires forall ds :: ds in targets ==> AttachedIn(tagged.log[|before.log|..], ds)
    ensures forall i :: |before.log| <= i < |after.log| && after.log[i].kind == CreateProfile ==>
              i == |after.log| - 1 && forall ds :: ds in targets ==> AttachedIn(after.log[|before.log|..i], ds)
  {
    assert after.log[|before.log|..|tagged.log|] == tagged.log[|before.log|..];
    assert forall i :: |before.log| <= i < |tagged.log| ==> after.log[i] == tagged.log[i];
  }

  ghost predicate NoNewProfile(a: VCenter, b: VCenter) {
    a.log <= b.log && forall i :: |a.log| <= i < |b.log| ==> b.log[i].kind != CreateProfile
  }

  /** The log holds a successful attachment to the datastore. */
  ghost predicate AttachedIn(log: seq<Attempt>, ds: Datastore) { Attempt(Kind.AttachTag(ds), true) in log }

  /** What tagging the datastores `done` promises, whether or not calls fail. */
  ghost predicate TaggedAll(
    a: VCenter, b: VCenter, category: string, name: string, done: seq<Datastore>, created: bool, ok: bool)
  {
    && Grown(a, b, category) && b.profiles == a.profiles && NoNewProfile(a, b)
    && (ok ==> forall ds :: ds in done ==> Tagged(b, name, ds))
    && (ok && !created ==>
          forall ds :: ds in done ==> Matched(b, category, name, ds) && AttachedIn(b.log[|a.log|..], ds))
  }

  lemma TaggedMore(a: VCenter, was: VCenter, b: VCenter, category: string, name: string,
                   done: seq<Datastore>, ds: Datastore, created: bool, ok: bool, tagged: bool)
    requires TaggedAll(a, was, category, name, done, created, ok)
    requires TaggedAll(was, b, category, name, [ds], created, tagged)
    requires forall d :: Matched(was, category, name, d) ==> Matched(b, category, name, d)
    ensures TaggedAll(a, b, category, name, done + [ds], created, ok && tagged)
  {
    GrownIsTransitive(a, was, b, category);
    forall d | Tagged(was, name, d) ensures Tagged(b, name, d) { GrownKeepsTagged(was, b, category, name, d); }
    forall d | d in done + [ds] && ok && tagged && !created ensures AttachedIn(b.log[|a.log|..], d) {
      AttachedLater(a.log, was.log, b.log, d);
    }
  }

  lemma OneVisitMore(faults: nat -> bool, was: VCenter, vc: VCenter, category: string, name: string,
                     targets: seq<Datastore>, ds: Datastore, starts: seq<nat>)
    requires VisitsCount(faults, was, name, targets, starts) && starts[|targets|] == was.calls
    requires Grown(was, vc, category)
    requires Calm(faults, was.calls, vc.calls) ==> Tagged(vc, name, ds)
    ensures VisitsCount(faults, vc, name, targets + [ds], starts + [vc.calls])
  {
    forall d | Tagged(was, name, d) ensures Tagged(vc, name, d) { GrownKeepsTagged(was, vc, category, name, d); }
  }

  /** What later calls add does not make a visit count less. */
  lemma VisitsStillCount(faults: nat -> bool, was: VCenter, vc: VCenter, category: string, name: string,
                         targets: seq<Datastore>, starts: seq<nat>)
    requires VisitsCount(faults, was, name, targets, starts) && Grown(was, vc, category)
    ensures VisitsCount(faults, vc, name, targets, starts)
  {
    forall d | Tagged(was, name, d) ensures Tagged(vc, name, d) { GrownKeepsTagged(was, vc, category, name, d); }
  }

  /** How far the loop got after the datastores `done`, from state `a` to state `b`. */
  ghost predicate TagProgress(faults: nat -> bool, a: VCenter, b: VCenter, category: string, name: string,
                              done: seq<Datastore>, created: bool, ok: bool, starts: seq<nat>)
  {
    && TaggedAll(a, b, category, name, done, created, ok)
    && VisitsCount(faults, b, name, done, starts) && starts[0] == a.calls && starts[|done|] == b.calls
    && (NoFaults(faults, a.calls) ==> ok)
    && (NoFaults(faults, a.calls) && created ==>
          && TracksMatches(a, b, category, name, Members(done))
          && ((forall d :: d in done ==> Tagged(a, name, d)) ==> b == a.(calls := b.calls)))
  }

  lemma TagProgressStep(faults: nat -> bool, a: VCenter, was: VCenter, b: VCenter, category: string, name: string,
                        done: seq<Datastore>, ds: Datastore, created: bool, ok: bool, tagged: bool, starts: seq<nat>)
    requires TagProgress(faults, a, was, category, name, done, created, ok, starts)
    requires TaggedAll(was, b, category, name, [ds], created, tagged)
    requires forall d :: Matched(was, category, name, d) ==> Matched(b, category, name, d)
    requires Calm(faults, was.calls, b.calls) ==> tagged
    requires NoFaults(faults, was.calls) && created && Tagged(was, name, ds) ==> b == was.(calls := b.calls)
    requires NoFaults(faults, was.calls) && !Tagged(was, name, ds) ==> TagStep(was, b, category, name, ds)
    ensures TagProgress(faults, a, b, category, name, done + [ds], created, ok && tagged, starts + [b.calls])
  {
    TaggedMore(a, was, b, category, name, done, ds, created, ok, tagged);
    assert ds in [ds];
    OneVisitMore(faults, was, b, category, name, done, ds, starts);
    if NoFaults(faults, a.calls) && created {
      TracksStep(a, was, b, category, name, Members(done), ds);
      assert Members(done + [ds]) == Members(done) + {ds};
      if forall d :: d in done + [ds] ==> Tagged(a, name, d) {
        assert ds in done + [ds] && forall d :: d in done ==> d in done + [ds];
        GrownKeepsTagged(a, was, category, name, ds);
      }
    }
  }

  /** The datastores of the list that do not carry the tag. */
  ghost function Untagged(vc: VCenter, name: string, targets: seq<Datastore>): set<Datastore> {
    set ds | ds in targets && !Tagged(vc, name, ds)
  }

  /** A range in which a call failed adds a failing call. */
  lemma FaultsAdd(faults: nat -> bool, from: nat, mid: nat, until: nat)
    requires from <= mid <= until
    ensures |FaultsIn(faults, from, until)| >= |FaultsIn(faults, from, mid)| + if Calm(faults, mid, until) then 0 else 1
  {
    var before, all := FaultsIn(faults, from, mid), FaultsIn(faults, from, until);
    SubsetSize(before, all);
    if !Calm(faults, mid, until) {
      var n: nat :| mid <= n < until && faults(n);
      assert n !in before && before + {n} <= all;
      SubsetSize(before + {n}, all);
    }
  }

  /** Every datastore left untagged has cost a failed call of its own. */
  lemma {:induction false} LostAreFew(
      faults: nat -> bool, vc: VCenter, name: string, targets: seq<Datastore>, starts: seq<nat>)
    requires VisitsCount(faults, vc, name, targets, starts)
    ensures starts[0] <= starts[|targets|]
    ensures |Untagged(vc, name, targets)| <= |FaultsIn(faults, starts[0], starts[|targets|])|
  {
    if targets == [] {
      assert Untagged(vc, name, targets) == {};
    } else {
      var n := |targets| - 1;
      LostAreFew(faults, vc, name, targets[..n], starts[..n + 1]);
      FaultsAdd(faults, starts[0], starts[n], starts[n + 1]);
      UntaggedMore(vc, name, targets[..n], targets[n]);
      assert targets == targets[..n] + [targets[n]];
    }
  }

  lemma UntaggedMore(vc: VCenter, name: string, targets: seq<Datastore>, ds: Datastore)
    ensures |Untagged(vc, name, targets + [ds])|
            <= |Untagged(vc, name, targets)| + if Tagged(vc, name, ds) then 0 else 1
  {
    var few, more := Untagged(vc, name, targets), Untagged(vc, name, targets + [ds]);
    if Tagged(vc, name, ds) {
      assert more == few;
    } else {
      assert more == few + {ds};
    }
  }

  lemma SubsetSize(a: set<nat>, b: set<nat>)
    requires a <= b
    ensures |a| <= |b|
  {
    assert b == a + (b - a);
  }

  function Members(targets: seq<Datastore>): set<Datastore> { set t | t in targets }

  /** What a successful tagging does: `ds` is matched, no other attachment of the tag changes, no match is lost. */
  ghost predicate TagStep(a: VCenter, b: VCenter, category: string, name: string, ds: Datastore) {
    && Matched(b, category, name, ds)
    && (TagIndex(a.tags, name) < |a.tags| ==>
          forall d :: d != ds ==> (FirstTagOn(b, name, d) <==> FirstTagOn(a, name, d)))
    && (forall d :: Tagged(b, name, d) && !Tagged(a, name, d) ==> Matched(b, category, name, d))
    && (forall d :: Matched(a, category, name, d) ==> Matched(b, category, name, d))
  }

  lemma TagStepHolds(a: VCenter, b: VCenter, category: string, name: string, ds: Datastore)
    requires Grown(a, b, category) && Matched(b, category, name, ds) && |b.tags| <= |a.tags| + 1
    requires b.attached == a.attached + {(b.tags[TagIndex(b.tags, name)].id, ds)}
    requires TagIndex(a.tags, name) < |a.tags| ==>
               |b.tags| == |a.tags| && TagIndex(b.tags, name) == TagIndex(a.tags, name)
    ensures TagStep(a, b, category, name, ds)
  {
    forall d | Tagged(b, name, d) && !Tagged(a, name, d) ensures FirstTagOn(b, name, d) {
      var i :| 0 <= i < |b.tags| && b.tags[i].name == name && (b.tags[i].id, d) in b.attached;
      if i < |a.tags| { assert a.tags[i].name == name && a.tags[i].id == b.tags[i].id; }
    }
  }

  /** The last of the three calls, after category and tag are right. */
  lemma Attaching(a: VCenter, tagged: VCenter, b: VCenter, category: string, name: string, ds: Datastore, ok: bool)
    requires Grown(a, tagged, category) && NoNewProfile(a, tagged) && InCategory(tagged, category, name)
    requires tagged.attached == a.attached && |tagged.tags| <= |a.tags| + 1
    requires TagIndex(a.tags, name) < |a.tags| ==>
               |tagged.tags| == |a.tags| && TagIndex(tagged.tags, name) == TagIndex(a.tags, name)
    requires forall d :: Matched(a, category, name, d) ==> Matched(tagged, category, name, d)
    requires var id := tagged.tags[TagIndex(tagged.tags, name)].id;
             b == tagged.(calls := b.calls, log := tagged.log + [Attempt(AttachTag(ds), ok)],
                          attached := tagged.attached + if ok then {(id, ds)} else {})
    requires tagged.calls <= b.calls
    ensures Grown(a, b, category) && NoNewProfile(a, b)
    ensures ok ==> AttachedIn(b.log[|a.log|..], ds) && TagStep(a, b, category, name, ds)
    ensures forall d :: Matched(a, category, name, d) ==> Matched(b, category, name, d)
  {
    if ok {
      assert b.log[|a.log|..][|tagged.log| - |a.log|] == Attempt(AttachTag(ds), true);
      TagStepHolds(a, b, category, name, ds);
    }
    forall d | Matched(a, category, name, d) ensures Matched(b, category, name, d) {
      assert Matched(tagged, category, name, d);
    }
  }

  lemma TagStepFrom(a: VCenter, c: VCenter, b: VCenter, category: string, name: string, ds: Datastore)
    requires c.tags == a.tags && c.attached == a.attached && c.categories == a.categories
    requires TagStep(c, b, category, name, ds)
    ensures TagStep(a, b, category, name, ds)
  {
    forall d ensures Tagged(a, name, d) <==> Tagged(c, name, d) {}
    forall d ensures FirstTagOn(a, name, d) <==> FirstTagOn(c, name, d) {}
  }

  /** How far the matches of `b` are known from `a`, once the datastores `done` were visited. */
  ghost predicate TracksMatches(a: VCenter, b: VCenter, category: string, name: string, done: set<Datastore>) {
    && (forall d :: Tagged(a, name, d) ==> (FirstTagOn(b, name, d) <==> FirstTagOn(a, name, d)))
    && (forall d :: Tagged(b, name, d) && !Tagged(a, name, d) ==> Matched(b, category, name, d))
    && (InCategory(b, category, name)
        <==> InCategory(a, category, name) || exists t :: t in done && !Tagged(a, name, t))
  }

  lemma TracksStep(a: VCenter, was: VCenter, b: VCenter, category: string, name: string,
                   done: set<Datastore>, t: Datastore)
    requires TracksMatches(a, was, category, name, done) && Grown(a, was, category)
    requires if Tagged(was, name, t) then b == was.(calls := b.calls) else TagStep(was, b, category, name, t)
    ensures TracksMatches(a, b, category, name, done + {t})
  {
    forall d | Tagged(a, name, d) ensures Tagged(was, name, d) { GrownKeepsTagged(a, was, category, name, d); }
    if Tagged(was, name, t) {
      UnchangedTags(was, b, category, name);
      assert !Tagged(a, name, t) ==> Matched(was, category, name, t);
    } else {
      assert t in done + {t} && !Tagged(a, name, t);
      forall d | Tagged(a, name, d) ensures FirstTagOn(b, name, d) <==> FirstTagOn(a, name, d) {
        assert d != t;
        TaggedHasFirst(a, name, d);
        TaggedHasFirst(was, name, d);
      }
    }
  }

  lemma TaggedHasFirst(vc: VCenter, name: string, ds: Datastore)
    requires Tagged(vc, name, ds)
    ensures TagIndex(vc.tags, name) < |vc.tags|
  {}

  lemma UnchangedTags(a: VCenter, b: VCenter, category: string, name: string)
    requires b.tags == a.tags && b.attached == a.attached && b.categories == a.categories
    ensures forall d :: Tagged(a, name, d) <==> Tagged(b, name, d)
    ensures forall d :: FirstTagOn(a, name, d) <==> FirstTagOn(b, name, d)
    ensures InCategory(a, category, name) <==> InCategory(b, category, name)
  {}

  lemma SameFate(a: VCenter, b: VCenter, category: string, name: string, targets: set<Datastore>)
    requires b.tags == a.tags && b.attached == a.attached && b.categories == a.categories
    ensures forall ds :: WillMatch(a, category, name, targets, ds) <==> WillMatch(b, category, name, targets, ds)
  {
    UnchangedTags(a, b, category, name);
  }

  lemma TracksMeans(a: VCenter, b: VCenter, category: string, name: string, targets: set<Datastore>)
    requires TracksMatches(a, b, category, name, targets) && forall t :: t in targets ==> Tagged(b, name, t)
    ensures forall t :: t in targets ==>
              (Matched(b, category, name, t) <==> WillMatch(a, category, name, targets, t))
  {}

  lemma TagIndexIs(tags: seq<Tag>, name: string, i: nat)
    requires i < |tags| && tags[i].name == name && forall j :: 0 <= j < i ==> tags[j].name != name
    ensures TagIndex(tags, name) == i
  {}

  lemma GrownKeepsTagged(a: VCenter, b: VCenter, category: string, name: string, ds: Datastore)
    requires Grown(a, b, category) && Tagged(a, name, ds)
    ensures Tagged(b, name, ds)
  {
    var i :| 0 <= i < |a.tags| && a.tags[i].name == name && (a.tags[i].id, ds) in a.attached;
    assert b.tags[i].name == name;
  }

  /** A match is lost only if the first tag of that name changes, or leaves the category. */
  lemma MatchesSurvive(a: VCenter, b: VCenter, category: string, name: string)
    requires Grown(a, b, category) && (TagIndex(a.tags, name) < |a.tags|
              ==> TagIndex(b.tags, name) == TagIndex(a.tags, name))
    requires var i := TagIndex(a.tags, name);
             i < |a.tags| ==> b.tags[i].category == a.tags[i].category
                              || (category in b.categories && b.tags[i].category == b.categories[category].id)
    ensures forall d :: Matched(a, category, name, d) ==> Matched(b, category, name, d)
  {}

  lemma GrownIsTransitive(a: VCenter, b: VCenter, c: VCenter, category: string)
    requires Grown(a, b, category) && Grown(b, c, category)
    ensures Grown(a, c, category)
  {}

  lemma AttachedLater(a: seq<Attempt>, b: seq<Attempt>, c: seq<Attempt>, ds: Datastore)
    requires a <= b <= c
    ensures AttachedIn(b[|a|..], ds) || AttachedIn(c[|b|..], ds) ==> AttachedIn(c[|a|..], ds)
  {
    assert c[|a|..] == b[|a|..] + c[|b|..];
  }
}
