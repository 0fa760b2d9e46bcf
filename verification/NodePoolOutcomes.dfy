/**
 What a check that returns can report, exactly.  The failures come from a prefix of the node list, so they are
 the first so many of the sequential check; and every number from one up to that of the workers is possible.
 */
module NodePoolOutcomes {
  import opened NodePool
  import opened NodePoolSafety
  import opened NodePoolTheorems
  import opened NodePoolBlocking
  import C = CheckResults

  /** The failures of the sequential check. */
  function AllFailures(p: Pool): seq<Failure> { Failures(p, |p.nodes|) }

  // ---------- the schedule that reports a given prefix ----------

  /**
   The nodes before `m` were handed out, `k` workers are gone, the next hold the other failures of `fs` and the
   rest wait.
   */
  function Stage(p: Pool, m: nat, fs: seq<Failure>, k: nat, pc: Producer, closed: bool, workDone: bool): State
    requires m <= |p.nodes| && k <= p.workers
  {
    State(pc, [], closed, workDone,
          seq(p.workers, i requires 0 <= i => if i < k then Gone else if i < |fs| then Reporting(fs[i]) else Receiving),
          p.workers - k, Hosts(p, m), if k < |fs| then fs[..k] else fs, m, m, p.workers, k,
          if closed then 1 else 0, false)
  }

  /** One more worker leaves: it reports what it holds, or finds the channel closed. */
  lemma OneLeaves(p: Pool, m: nat, fs: seq<Failure>, k: nat, pc: Producer, closed: bool, workDone: bool)
    requires m <= |p.nodes| && k < p.workers && (k < |fs| || closed)
    requires Reachable(p, Stage(p, m, fs, k, pc, closed, workDone))
    ensures Reachable(p, Stage(p, m, fs, k + 1, pc, closed, workDone))
  {
    var s, t := Stage(p, m, fs, k, pc, closed, workDone), Stage(p, m, fs, k + 1, pc, closed, workDone);
    var mid := s.(workers := s.workers[k := Finishing], results := t.results);
    if k < |fs| { assert fs[..k] + [fs[k]] == fs[..k + 1]; }
    if k + 1 == |fs| { assert fs[..k + 1] == fs; }
    Then(p, s, mid, Worker(k));
    assert mid.workers[k := Gone] == t.workers;
    Then(p, mid, t, Worker(k));
  }

  lemma {:induction false} ManyLeave(
      p: Pool, m: nat, fs: seq<Failure>, k: nat, until: nat, pc: Producer, closed: bool, workDone: bool)
    requires m <= |p.nodes| && k <= until <= p.workers && (until <= |fs| || closed)
    requires Reachable(p, Stage(p, m, fs, k, pc, closed, workDone))
    ensures Reachable(p, Stage(p, m, fs, until, pc, closed, workDone))
    decreases until
  {
    if k < until {
      ManyLeave(p, m, fs, k, until - 1, pc, closed, workDone);
      OneLeaves(p, m, fs, until - 1, pc, closed, workDone);
    }
  }

  /** The producer sees a result, or the end of the list, closes the channel and waits. */
  lemma Closing(p: Pool, m: nat, fs: seq<Failure>)
    requires m <= |p.nodes| && |fs| <= p.workers && (fs != [] || m == |p.nodes|)
    requires Reachable(p, Stage(p, m, fs, |fs|, Peeking(m), false, false))
    ensures Reachable(p, Stage(p, m, fs, |fs|, Waiting, true, m < |p.nodes|))
  {
    var k := |fs|;
    var s, t := Stage(p, m, fs, k, Peeking(m), false, false), Stage(p, m, fs, k, Waiting, true, m < |p.nodes|);
    if m < |p.nodes| {
      var s1 := s.(pc := ClosingEarly);
      Then(p, s, s1, Main);
      var s2 := t.(pc := LeftLoop);
      Then(p, s1, s2, Main);
      Then(p, s2, t, Main);
    } else {
      var s1 := s.(pc := LeftLoop);
      Then(p, s, s1, Main);
      var s2 := s.(pc := ClosingLate);
      Then(p, s1, s2, Main);
      Then(p, s2, t, Main);
    }
  }

  lemma ReturnFrom(p: Pool, m: nat) returns (s: State)
    requires p.Valid() && m <= |p.nodes| && |Failures(p, m)| <= p.workers && (Failures(p, m) != [] || m == |p.nodes|)
    requires forall i :: 0 <= i < m ==> |Failures(p, i)| < p.workers
    ensures Reachable(p, s) && s.pc.Returned? && s.results == Failures(p, m)
  {
    var fs := Failures(p, m);
    ReachBusy(p, m);
    assert Busy(p, m) == Stage(p, m, fs, 0, Peeking(m), false, false);
    ManyLeave(p, m, fs, 0, |fs|, Peeking(m), false, false);
    Closing(p, m, fs);
    ManyLeave(p, m, fs, |fs|, p.workers, Waiting, true, m < |p.nodes|);
    var waiting := Stage(p, m, fs, p.workers, Waiting, true, m < |p.nodes|);
    assert waiting.results == fs;
    s := waiting.(pc := Returned(Verdict(waiting.results)));
    Then(p, waiting, s, Main);
  }

  /** Every non-empty prefix that the workers can hold is what some schedule reports. */
  lemma PrefixIsReported(p: Pool, c: nat) returns (s: State)
    requires p.Valid() && 0 < c <= p.workers && c <= |AllFailures(p)|
    ensures Reachable(p, s) && s.pc.Returned? && s.results == AllFailures(p)[..c]
  {
    var m := FirstPrefix(p, c, |p.nodes|);
    FailuresGrow(p, m, |p.nodes|);
    s := ReturnFrom(p, m);
  }

  // ---------- nothing else is reported ----------

  /** The results are the first failures of the sequential check, each once, in some order. */
  ghost predicate Reports(p: Pool, results: seq<Failure>, c: nat) {
    && c <= |AllFailures(p)| && |results| == c
    && (forall f :: f in results <==> f in AllFailures(p)[..c])
  }

  lemma ReportsAPrefix(p: Pool, s: State) returns (c: nat)
    requires p.Valid() && Reachable(p, s) && s.pc.Returned?
    ensures Reports(p, s.results, c) && c <= p.workers && (c == 0 ==> AllFailures(p) == [])
  {
    ReachableInv(p, s);
    PoolSafety(p, s);
    ReceivedIsReported(p, s);
    FailuresGrow(p, s.received, |p.nodes|);
    var fs := Failures(p, s.received);
    c := |fs|;
    FailuresComplete(p, s.received);
    DistinctSubset(s.results, fs);
    DistinctSubset(fs, s.results);
    assert AllFailures(p)[..c] == fs;
    if c == 0 { assert s.results == []; }
  }

  /**
   Exactly what can be reported: nothing if nothing is wrong, and otherwise the first so many failures, at least
   one and at most as many as there are workers.
   */
  lemma ReportedExactlyWhen(p: Pool, c: nat)
    requires p.Valid()
    ensures (exists s :: Reachable(p, s) && s.pc.Returned? && Reports(p, s.results, c))
            <==> c <= p.workers && c <= |AllFailures(p)| && (c == 0 ==> AllFailures(p) == [])
  {
    if s :| Reachable(p, s) && s.pc.Returned? && Reports(p, s.results, c) {
      var c' := ReportsAPrefix(p, s);
    }
    if c <= p.workers && c <= |AllFailures(p)| && (c == 0 ==> AllFailures(p) == []) {
      var s;
      if c == 0 {
        forall i | 0 <= i < |p.nodes| ensures |Failures(p, i)| < p.workers { FailuresGrow(p, i, |p.nodes|); }
        s := ReturnFrom(p, |p.nodes|);
      } else {
        s := PrefixIsReported(p, c);
      }
      assert Reports(p, s.results, c);
    }
  }

  // ---------- what the schedule can change ----------

  /** The highest severity among the results, which decides what the whole environment check concludes. */
  function Peak(results: seq<Failure>, severity: Failure -> nat): nat {
    if results == [] then 0
    else
      var before := Peak(results[..|results| - 1], severity);
      var last := severity(results[|results| - 1]);
      if last > before then last else before
  }

  lemma {:induction false} PeakIsHighest(results: seq<Failure>, severity: Failure -> nat)
    ensures forall f :: f in results ==> severity(f) <= Peak(results, severity)
    ensures results == [] || exists f :: f in results && severity(f) == Peak(results, severity)
  {
    if results != [] {
      var front, last := results[..|results| - 1], results[|results| - 1];
      PeakIsHighest(front, severity);
      assert results == front + [last];
      assert last in results;
    }
  }

  /** A failure among the first that the workers can hold is more severe than the first of all. */
  ghost predicate Worsens(p: Pool, severity: Failure -> nat) {
    exists i :: 0 <= i < p.workers && i < |AllFailures(p)| && severity(AllFailures(p)[i]) > severity(AllFailures(p)[0])
  }

  /** Every schedule that returns concludes with the same severity. */
  ghost predicate ScheduleDoesNotMatter(p: Pool, severity: Failure -> nat) {
    forall s, t :: Reachable(p, s) && s.pc.Returned? && Reachable(p, t) && t.pc.Returned? ==>
      Peak(s.results, severity) == Peak(t.results, severity)
  }

  lemma PeakWithoutWorsening(p: Pool, s: State, severity: Failure -> nat)
    requires p.Valid() && Reachable(p, s) && s.pc.Returned? && !Worsens(p, severity)
    ensures Peak(s.results, severity) == if AllFailures(p) == [] then 0 else severity(AllFailures(p)[0])
  {
    var c := ReportsAPrefix(p, s);
    PeakIsHighest(s.results, severity);
    if c > 0 {
      var all := AllFailures(p);
      assert all[0] == all[..c][0] && all[0] in s.results;
      forall f | f in s.results ensures severity(f) <= severity(all[0]) {
        var i :| 0 <= i < c && all[..c][i] == f;
        assert all[i] == f;
      }
    }
  }

  /** The schedule does not matter exactly when no failure that it may add is more severe than the first. */
  lemma ScheduleMattersExactlyWhen(p: Pool, severity: Failure -> nat)
    requires p.Valid()
    ensures ScheduleDoesNotMatter(p, severity) <==> !Worsens(p, severity)
  {
    if Worsens(p, severity) {
      var all := AllFailures(p);
      var i :| 0 <= i < p.workers && i < |all| && severity(all[i]) > severity(all[0]);
      var s := PrefixIsReported(p, 1);
      var t := PrefixIsReported(p, i + 1);
      PeakIsHighest(s.results, severity);
      PeakIsHighest(t.results, severity);
      assert s.results == [all[0]];
      assert t.results[i] == all[i] && all[i] in t.results;
    } else {
      forall s, t | Reachable(p, s) && s.pc.Returned? && Reachable(p, t) && t.pc.Returned?
        ensures Peak(s.results, severity) == Peak(t.results, severity)
      {
        PeakWithoutWorsening(p, s, severity);
        PeakWithoutWorsening(p, t, severity);
      }
    }
  }

  // ---------- the same for the results of the environment check ----------

  function Findings(results: seq<Failure>, verdict: Failure -> C.CheckResult): seq<C.CheckResult> {
    if results == [] then []
    else Findings(results[..|results| - 1], verdict) + [verdict(results[|results| - 1])]
  }

  /** Folding the findings ends in the peak of their severity. */
  lemma {:induction false} FoldEndsInPeak(results: seq<Failure>, verdict: Failure -> C.CheckResult)
    ensures C.Rank(C.Worst(Findings(results, verdict)).action) == Peak(results, f => C.Rank(verdict(f).action))
  {
    if results != [] {
      var front := results[..|results| - 1];
      FoldEndsInPeak(front, verdict);
      var all := Findings(results, verdict);
      assert all[..|all| - 1] == Findings(front, verdict);
    }
  }

  /**
   A node of an old hardware version before one that is not a vSphere node: whether the cluster is degraded, or
   perhaps only its upgrade blocked, is up to the schedule.
   */
  lemma OldHardwareRaces(workers: nat, verdict: Failure -> C.CheckResult) returns (s: State, t: State)
    requires workers >= 2
    requires exists reason :: verdict(NodeFailed(0)) == C.DeprecatedEnvironment(C.DeprecatedHWVersion, reason)
    requires exists reason :: verdict(NodeFailed(1)) == C.DegradedError(C.NonVSphereNode, reason)
    ensures var p := Pool(workers, [Rejected, Rejected], {});
            Reachable(p, s) && s.pc.Returned? && Reachable(p, t) && t.pc.Returned?
    ensures C.Worst(Findings(s.results, verdict)).action == C.BlockUpgradeOrDegrade
    ensures C.Worst(Findings(t.results, verdict)).action == C.Degrade
  {
    var p := Pool(workers, [Rejected, Rejected], {});
    assert Failures(p, 1) == [NodeFailed(0)];
    assert AllFailures(p) == [NodeFailed(0), NodeFailed(1)];
    s := PrefixIsReported(p, 1);
    t := PrefixIsReported(p, 2);
    assert s.results == [NodeFailed(0)] && t.results == [NodeFailed(0), NodeFailed(1)];
    FoldTwo(NodeFailed(0), NodeFailed(1), verdict);
  }

  lemma FoldTwo(a: Failure, b: Failure, verdict: Failure -> C.CheckResult)
    requires C.Rank(verdict(a).action) <= C.Rank(verdict(b).action)
    ensures C.Worst(Findings([a], verdict)) == verdict(a) && C.Worst(Findings([a, b], verdict)) == verdict(b)
  {
    assert [a][..0] == [] && [a, b][..1] == [a];
    var one, two := Findings([a], verdict), Findings([a, b], verdict);
    assert one == [verdict(a)] && two == [verdict(a), verdict(b)];
    assert one[..0] == [] && two[..1] == one;
  }
}
