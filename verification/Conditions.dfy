/** The operator's condition list: setting, removing and searching conditions. */
module Conditions {
  import opened Platform

  datatype Status = ConditionTrue | ConditionFalse | ConditionUnknown

  datatype Condition = Condition(kind: string, status: Status, reason: string, message: string)

  const NAME := "VMwareVSphereController"
  const CHECK_DEGRADED := "VMwareVSphereOperatorCheckDegraded"
  const UPGRADEABLE := "VMwareVSphereControllerUpgradeable"
  const DISABLED := "VMwareVSphereControllerDisabled"
  const AVAILABLE := "VMwareVSphereControllerAvailable"
  const OPERATOR_PREFIX := "VMwareVSphere"

  const UNTOUCHABLE := {
    "VMwareVSphereControllerDegraded",
    "VMwareVSphereDriverFeatureConfigControllerDegraded",
    "VMWareVSphereDriverServiceMonitorControllerDegraded"}

  lemma KindsDiffer()
    ensures CHECK_DEGRADED != UPGRADEABLE && CHECK_DEGRADED != DISABLED && CHECK_DEGRADED != AVAILABLE
    ensures UPGRADEABLE != DISABLED && UPGRADEABLE != AVAILABLE && DISABLED != AVAILABLE
  {
    assert CHECK_DEGRADED[13] == 'O' && UPGRADEABLE[13] == DISABLED[13] == AVAILABLE[13] == 'C';
    assert UPGRADEABLE[23] == 'U' && DISABLED[23] == 'D' && AVAILABLE[23] == 'A';
  }

  function Find(cs: seq<Condition>, kind: string): Option<Condition> {
    if cs == [] then None else if cs[0].kind == kind then Some(cs[0]) else Find(cs[1..], kind)
  }

  /** Update the first condition of that kind, or append. */
  function Set(cs: seq<Condition>, c: Condition): seq<Condition> {
    if cs == [] then [c] else if cs[0].kind == c.kind then [c] + cs[1..] else [cs[0]] + Set(cs[1..], c)
  }

  function Remove(cs: seq<Condition>, kind: string): seq<Condition> {
    if cs == [] then []
    else (if cs[0].kind == kind then [] else [cs[0]]) + Remove(cs[1..], kind)
  }

  lemma {:induction false} FindAfterSet(cs: seq<Condition>, c: Condition, kind: string)
    ensures Find(Set(cs, c), kind) == if kind == c.kind then Some(c) else Find(cs, kind)
  {
    if cs != [] { FindAfterSet(cs[1..], c, kind); }
  }

  lemma {:induction false} FindAfterRemove(cs: seq<Condition>, removed: string, kind: string)
    ensures Find(Remove(cs, removed), kind) == if kind == removed then None else Find(cs, kind)
  {
    if cs != [] {
      FindAfterRemove(cs[1..], removed, kind);
      assert cs[0].kind == removed ==> Remove(cs, removed) == Remove(cs[1..], removed);
    }
  }

  lemma {:induction false} FindIsMember(cs: seq<Condition>, kind: string)
    ensures Find(cs, kind).Some? ==> Find(cs, kind).value in cs && Find(cs, kind).value.kind == kind
    ensures Find(cs, kind).None? <==> forall c :: c in cs ==> c.kind != kind
  {
    if cs != [] {
      FindIsMember(cs[1..], kind);
      assert cs == [cs[0]] + cs[1..];
    }
  }

  lemma {:induction false} SetKeepsOthers(cs: seq<Condition>, c: Condition, d: Condition)
    requires d.kind != c.kind
    ensures d in Set(cs, c) <==> d in cs
  {
    if cs != [] {
      SetKeepsOthers(cs[1..], c, d);
      assert cs == [cs[0]] + cs[1..];
    }
  }

  lemma {:induction false} RemoveFilters(cs: seq<Condition>, kind: string, d: Condition)
    ensures d in Remove(cs, kind) <==> d in cs && d.kind != kind
  {
    if cs != [] {
      RemoveFilters(cs[1..], kind, d);
      assert cs == [cs[0]] + cs[1..];
    }
  }

  // ---------- other people's conditions ----------

  /** The kinds this controller writes or cleans up. */
  const OWN := {CHECK_DEGRADED, UPGRADEABLE, DISABLED, AVAILABLE}

  /** The conditions of all other controllers, in their order. */
  function Foreign(cs: seq<Condition>): seq<Condition> {
    if cs == [] then [] else (if cs[0].kind in OWN then [] else [cs[0]]) + Foreign(cs[1..])
  }

  lemma {:induction false} ForeignMembers(cs: seq<Condition>, d: Condition)
    ensures d in Foreign(cs) <==> d in cs && d.kind !in OWN
  {
    if cs != [] {
      ForeignMembers(cs[1..], d);
      assert cs == [cs[0]] + cs[1..];
    }
  }

  lemma {:induction false} SetKeepsForeign(cs: seq<Condition>, c: Condition)
    requires c.kind in OWN
    ensures Foreign(Set(cs, c)) == Foreign(cs)
  {
    if cs == [] {
      assert Foreign([c]) == [] + Foreign([c][1..]);
    } else {
      SetKeepsForeign(cs[1..], c);
      if cs[0].kind == c.kind {
        assert ([c] + cs[1..])[1..] == cs[1..];
      } else {
        assert ([cs[0]] + Set(cs[1..], c))[1..] == Set(cs[1..], c);
      }
    }
  }

  lemma {:induction false} RemoveKeepsForeign(cs: seq<Condition>, kind: string)
    requires kind in OWN
    ensures Foreign(Remove(cs, kind)) == Foreign(cs)
  {
    if cs != [] {
      RemoveKeepsForeign(cs[1..], kind);
      if cs[0].kind != kind {
        assert ([cs[0]] + Remove(cs[1..], kind))[1..] == Remove(cs[1..], kind);
      } else {
        assert Remove(cs, kind) == Remove(cs[1..], kind);
      }
    }
  }

  // ---------- error conditions ----------

  predicate EndsWith(s: string, suffix: string) { |suffix| <= |s| && s[|s| - |suffix|..] == suffix }

  predicate IsError(c: Condition) {
    || (EndsWith(c.kind, "Degraded") && c.status == ConditionTrue)
    || (EndsWith(c.kind, "Upgradeable") && c.status == ConditionFalse)
  }

  /** The kind ends in "Degraded" and is True, or in "Upgradeable" and is False. */
  lemma IsErrorMeans(c: Condition)
    ensures IsError(c) <==>
              || (c.status == ConditionTrue && exists p :: c.kind == p + "Degraded")
              || (c.status == ConditionFalse && exists p :: c.kind == p + "Upgradeable")
  {
    EndsWithMeans(c.kind, "Degraded");
    EndsWithMeans(c.kind, "Upgradeable");
  }

  lemma EndsWithMeans(s: string, suffix: string)
    ensures EndsWith(s, suffix) <==> exists p :: s == p + suffix
  {
    if EndsWith(s, suffix) { assert s == s[..|s| - |suffix|] + suffix; }
  }

  predicate AnyError(cs: seq<Condition>) { exists i :: 0 <= i < |cs| && IsError(cs[i]) }

  method HasErrorConditions(cs: seq<Condition>) returns (r: bool)
    ensures r == AnyError(cs)
  {
    r := false;
    for i := 0 to |cs|
      invariant r == exists k :: 0 <= k < i && IsError(cs[k])
    {
      if EndsWith(cs[i].kind, "Degraded") && cs[i].status == ConditionTrue { r := true; }
      if EndsWith(cs[i].kind, "Upgradeable") && cs[i].status == ConditionFalse { r := true; }
      if r { break; }
    }
  }

  lemma DegradedIsError(cs: seq<Condition>)
    requires Find(cs, CHECK_DEGRADED).Some? && Find(cs, CHECK_DEGRADED).value.status == ConditionTrue
    ensures AnyError(cs)
  {
    FindIsMember(cs, CHECK_DEGRADED);
    var c := Find(cs, CHECK_DEGRADED).value;
    assert EndsWith(CHECK_DEGRADED, "Degraded");
    var i :| 0 <= i < |cs| && cs[i] == c;
    assert IsError(cs[i]);
  }

  // ---------- removal ----------

  predicate Removable(kind: string) { OPERATOR_PREFIX <= kind && kind !in UNTOUCHABLE && kind != DISABLED }

  function RemoveEach(cs: seq<Condition>, kinds: seq<string>): seq<Condition> {
    if kinds == [] then cs else Remove(RemoveEach(cs, kinds[..|kinds| - 1]), kinds[|kinds| - 1])
  }

  lemma {:induction false} RemoveEachFilters(cs: seq<Condition>, kinds: seq<string>, d: Condition)
    ensures d in RemoveEach(cs, kinds) <==> d in cs && d.kind !in kinds
  {
    if kinds != [] {
      var front := kinds[..|kinds| - 1];
      RemoveEachFilters(cs, front, d);
      RemoveFilters(RemoveEach(cs, front), kinds[|kinds| - 1], d);
      assert kinds == front + [kinds[|kinds| - 1]];
    }
  }

  function RemovableKinds(snapshot: seq<Condition>): seq<string> {
    if snapshot == [] then []
    else RemovableKinds(snapshot[..|snapshot| - 1])
         + if Removable(snapshot[|snapshot| - 1].kind) then [snapshot[|snapshot| - 1].kind] else []
  }

  lemma {:induction false} RemovableKindsAre(snapshot: seq<Condition>, kind: string)
    ensures kind in RemovableKinds(snapshot) <==> Removable(kind) && exists c :: c in snapshot && c.kind == kind
  {
    if snapshot != [] {
      var front, last := snapshot[..|snapshot| - 1], snapshot[|snapshot| - 1];
      RemovableKindsAre(front, kind);
      assert snapshot == front + [last];
      assert last in snapshot;
    }
  }

  function DisabledCondition(): Condition { Condition(DISABLED, ConditionTrue, "", "Operator is disabled") }

  /** What the status write of `removeConditions` leaves, given the snapshot read at the start of the sync. */
  function Removed(snapshot: seq<Condition>, current: seq<Condition>): seq<Condition> {
    Set(RemoveEach(current, RemovableKinds(snapshot)), DisabledCondition())
  }

  /** Every removable condition of the snapshot is gone, everything else is kept, and Disabled=True is present. */
  lemma RemovalIsExact(snapshot: seq<Condition>, current: seq<Condition>)
    ensures Find(Removed(snapshot, current), DISABLED) == Some(DisabledCondition())
    ensures forall d: Condition :: d.kind != DISABLED ==>
              (d in Removed(snapshot, current) <==>
               d in current && !(Removable(d.kind) && exists c :: c in snapshot && c.kind == d.kind))
  {
    var cs := RemoveEach(current, RemovableKinds(snapshot));
    FindAfterSet(cs, DisabledCondition(), DISABLED);
    forall d: Condition | d.kind != DISABLED
      ensures d in Removed(snapshot, current) <==>
              d in current && !(Removable(d.kind) && exists c :: c in snapshot && c.kind == d.kind)
    {
      SetKeepsOthers(cs, DisabledCondition(), d);
      RemoveEachFilters(current, RemovableKinds(snapshot), d);
      RemovableKindsAre(snapshot, d.kind);
    }
  }

  /** The source's two loops: collect the matching conditions of the snapshot, then drop them one by one. */
  method RemoveConditions(snapshot: seq<Condition>, current: seq<Condition>) returns (r: seq<Condition>)
    ensures r == Removed(snapshot, current)
  {
    var untouchable := UNTOUCHABLE + {DISABLED};
    var matching: seq<string> := [];
    for i := 0 to |snapshot|
      invariant matching == RemovableKinds(snapshot[..i])
    {
      assert snapshot[..i + 1][..i] == snapshot[..i];
      if OPERATOR_PREFIX <= snapshot[i].kind && snapshot[i].kind !in untouchable {
        matching := matching + [snapshot[i].kind];
      }
    }
    assert snapshot[..|snapshot|] == snapshot;
    r := current;
    for i := 0 to |matching|
      invariant r == RemoveEach(current, matching[..i])
    {
      assert matching[..i + 1][..i] == matching[..i];
      r := Remove(r, matching[i]);
    }
    assert matching[..|matching|] == matching;
    r := Set(r, DisabledCondition());
  }

  lemma OwnKindsAreRemovable()
    ensures Removable(CHECK_DEGRADED) && Removable(UPGRADEABLE)
  {
    KindsDiffer();
    assert |CHECK_DEGRADED| == |UPGRADEABLE| == 34;
    assert forall kind :: kind in UNTOUCHABLE ==> |kind| != 34;
  }
}
