/**
 The results about every schedule of the worker pool: run-time safety, agreement of the verdict
 with the sequential check, a bound on the number of steps, and exactly when the pool can block.
 */
module NodePoolTheorems {
  import opened NodePool
  import opened NodePoolSafety

  // ---------- the sequential check ----------

  /** The sequential check finds each rejected node and each bad host, once. */
  lemma {:induction false} FailuresComplete(p: Pool, j: nat)
    requires j <= |p.nodes|
    ensures |Failures(p, j)| <= j
    ensures forall a, b :: 0 <= a < b < |Failures(p, j)| ==> Failures(p, j)[a] != Failures(p, j)[b]
    ensures forall f :: f in Failures(p, j) <==>
              match f
              case NodeFailed(i) => i < j && p.nodes[i].Rejected?
              case HostFailed(h) => h in Hosts(p, j) && h in p.badHosts
  {
    if j > 0 {
      FailuresComplete(p, j - 1);
      var before, after := Failures(p, j - 1), Failures(p, j);
      assert forall h :: h in Hosts(p, j) <==> h in Hosts(p, j - 1) || p.nodes[j - 1] == OnHost(h);
      if |after| > |before| {
        assert after == before + [after[|before|]] && after[|before|] !in before;
      }
    }
  }

  lemma {:induction false} FailuresGrow(p: Pool, i: nat, j: nat)
    requires i <= j <= |p.nodes|
    ensures Failures(p, i) <= Failures(p, j)
    ensures |Failures(p, j)| <= |Failures(p, i)| + (j - i)
  {
    if i < j { FailuresGrow(p, i, j - 1); }
  }

  lemma SequentialVerdict(p: Pool)
    ensures Failures(p, |p.nodes|) == [] <==> AllHealthy(p)
  {
    var fs := Failures(p, |p.nodes|);
    FailuresComplete(p, |p.nodes|);
    if !AllHealthy(p) {
      var i :| 0 <= i < |p.nodes| && !(p.nodes[i].OnHost? && p.nodes[i].host !in p.badHosts);
      var f := if p.nodes[i].Rejected? then NodeFailed(i) else HostFailed(p.nodes[i].host);
      assert f in fs;
    }
    if fs != [] {
      assert fs[0] in fs;
    }
  }

  lemma GenuineIsFound(p: Pool, s: State, f: Failure)
    requires Ledger(p, s) && Genuine(p, s, f)
    ensures f in Failures(p, s.received)
  {
    FailuresComplete(p, s.received);
  }

  // ---------- safety ----------

  /** In every reachable state: no panic, no Done before the last Add, at most one close, nothing lost. */
  lemma PoolSafety(p: Pool, s: State)
    requires Reachable(p, s)
    ensures !s.panicked
    ensures 0 <= s.counter == s.adds - s.dones
    ensures s.dones > 0 ==> s.adds == p.workers
    ensures s.closes <= 1
    ensures s.sent == s.received + |s.buffer| && |s.buffer| <= p.workers
    ensures |s.results| <= p.workers
    ensures s.pc.Returned? ==> forall k :: 0 <= k < |s.workers| ==> s.workers[k].Gone?
  {
    ReachableInv(p, s);
    WeightBound(s.workers, IsGone);
    WeightBound(s.workers, HasQuit);
    if !Created(s) {
      assert forall k :: 0 <= k < |s.workers| ==> IsGone(s.workers[k]) == 0;
    }
  }

  /** In a reachable state with a closed channel the producer is past every send and every close, and stays there. */
  lemma NoSendAfterClose(p: Pool, s: State)
    requires Reachable(p, s) && s.closed
    ensures s.pc.LeftLoop? || s.pc.Waiting? || s.pc.Returned?
    ensures s.pc.LeftLoop? ==> s.workDone
  {
    ReachableInv(p, s);
  }

  // ---------- the verdict ----------

  lemma SilentReturnMeansHealthy(p: Pool, s: State)
    requires p.Valid() && Inv(p, s) && s.pc.Returned? && s.results == []
    ensures AllHealthy(p)
  {
    WeightBound(s.workers, IsGone);
    assert forall k :: 0 <= k < |s.workers| ==> IsGone(s.workers[k]) == 1;
    assert forall k :: 0 <= k < |s.workers| ==> s.workers[k].Gone?;
    WeightBound(s.workers, HasQuit);
    forall i | 0 <= i < |p.nodes| ensures p.nodes[i].OnHost? && p.nodes[i].host !in p.badHosts {
      assert Accounted(p, s, i);
    }
  }

  /** A check that returns reports exactly the failures of the nodes it received, and received all if there are none. */
  lemma ReceivedIsReported(p: Pool, s: State)
    requires p.Valid() && Inv(p, s) && s.pc.Returned?
    ensures forall f :: f in s.results <==> f in Failures(p, s.received)
    ensures s.results == [] ==> s.received == |p.nodes|
  {
    WeightBound(s.workers, IsGone);
    assert forall k :: 0 <= k < |s.workers| ==> IsGone(s.workers[k]) == 1;
    assert forall w :: w in s.workers ==> w.Gone?;
    WeightBound(s.workers, HasQuit);
    FailuresComplete(p, s.received);
    forall f | f in Failures(p, s.received) ensures f in s.results {
      match f {
        case NodeFailed(i) => assert Accounted(p, s, i);
        case HostFailed(h) =>
          var i :| 0 <= i < s.received && p.nodes[i] == OnHost(h);
          assert Accounted(p, s, i);
      }
    }
    forall f | f in s.results ensures f in Failures(p, s.received) { GenuineIsFound(p, s, f); }
  }

  /** Whatever the schedule, a finished check says what the sequential check says. */
  lemma VerdictIsSequential(p: Pool, s: State)
    requires p.Valid() && Reachable(p, s) && s.pc.Returned?
    ensures s.pc.outcomes == [Pass] <==> AllHealthy(p)
    ensures s.pc.outcomes == [Pass] <==> Failures(p, |p.nodes|) == []
    ensures !AllHealthy(p) ==>
              && s.received <= |p.nodes| && s.pc.outcomes != []
              && (forall o :: o in s.pc.outcomes ==> o.Failed?)
              && forall f :: Failed(f) in s.pc.outcomes <==> f in Failures(p, s.received)
  {
    ReachableInv(p, s);
    SequentialVerdict(p);
    ReceivedIsReported(p, s);
    FailuresGrow(p, s.received, |p.nodes|);
    if s.results == [] {
      SilentReturnMeansHealthy(p, s);
    } else {
      assert s.results[0] in Failures(p, s.received);
      assert Failures(p, |p.nodes|) != [];
      assert s.pc.outcomes[0].Failed?;
      forall f | f in s.results ensures Failed(f) in s.pc.outcomes {
        var i :| 0 <= i < |s.results| && s.results[i] == f;
        assert s.pc.outcomes[i] == Failed(f);
      }
    }
  }

  // ---------- progress ----------

  function Fuel(w: Worker): nat {
    match w
    case Checking(_) => 6
    case Marking(_, _) => 5
    case HostChecking(_) => 4
    case Unborn => 3
    case Receiving => 3
    case Reporting(_) => 2
    case Finishing => 1
    case Gone => 0
  }

  function ProducerFuel(p: Pool, pc: Producer): int {
    match pc
    case Starting(i) => 6 * |p.nodes| + 6 + 2 * (p.workers - i)
    case Adding(i) => 6 * |p.nodes| + 5 + 2 * (p.workers - i)
    case Peeking(i) => 6 * (|p.nodes| - i) + 5
    case Sending(i) => 6 * (|p.nodes| - i) + 4
    case ClosingEarly => 4
    case LeftLoop => 3
    case ClosingLate => 2
    case Waiting => 1
    case Returned(_) => 0
  }

  function Remaining(p: Pool, s: State): int {
    ProducerFuel(p, s.pc) + 4 * |s.buffer| + Weight(s.workers, Fuel)
  }

  lemma MainBurnsFuel(p: Pool, s: State)
    requires Control(p, s) && Enabled(p, s, Main)
    ensures Remaining(p, ProducerStep(p, s)) < Remaining(p, s)
  {
    if s.pc.Starting? && s.pc.i < |s.workers| {
      WeightUpdate(s.workers, Fuel, s.pc.i, Receiving);
    }
  }

  lemma StepBurnsFuel(p: Pool, s: State, k: nat)
    requires Enabled(p, s, Worker(k))
    ensures var t := WorkerStep(p, s, k);
            && t.pc == s.pc && |t.workers| == |s.workers| && t.workers == s.workers[k := t.workers[k]]
            && Fuel(t.workers[k]) + 4 * |t.buffer| < Fuel(s.workers[k]) + 4 * |s.buffer|
  {}

  lemma WorkerBurnsFuel(p: Pool, s: State, k: nat)
    requires Enabled(p, s, Worker(k))
    ensures Remaining(p, WorkerStep(p, s, k)) < Remaining(p, s)
  {
    StepBurnsFuel(p, s, k);
    WeightUpdate(s.workers, Fuel, k, WorkerStep(p, s, k).workers[k]);
  }

  lemma {:induction false} PlayBurnsFuel(p: Pool, s: State, schedule: seq<Actor>)
    requires Inv(p, s) && Playable(p, s, schedule)
    ensures |schedule| <= Remaining(p, s)
    decreases |schedule|
  {
    if schedule != [] {
      match schedule[0] {
        case Main => MainBurnsFuel(p, s);
        case Worker(k) => WorkerBurnsFuel(p, s, k);
      }
      PlayKeepsInv(p, s, schedule[..1]);
      assert Play(p, s, schedule[..1]) == Apply(p, s, schedule[0]);
      PlayBurnsFuel(p, Apply(p, s, schedule[0]), schedule[1..]);
    } else {
      assert ProducerFuel(p, s.pc) >= 0;
    }
  }

  lemma {:induction false} UniformWeight(ws: seq<Worker>, f: Worker -> nat, c: nat)
    requires forall k :: 0 <= k < |ws| ==> f(ws[k]) == c
    ensures Weight(ws, f) == c * |ws|
  {
    if ws != [] { UniformWeight(ws[1..], f, c); }
  }

  /** No schedule is longer than this, whether or not it ends in a return. */
  lemma ScheduleBound(p: Pool, schedule: seq<Actor>)
    requires Playable(p, Init(p), schedule)
    ensures |schedule| <= 6 * |p.nodes| + 5 * p.workers + 6
  {
    InitInv(p);
    PlayBurnsFuel(p, Init(p), schedule);
    UniformWeight(Init(p).workers, Fuel, 3);
  }

  /** When nothing can move, the check has returned or is blocked for good; there is no third case. */
  lemma OnlyStuckState(p: Pool, s: State)
    requires Reachable(p, s)
    ensures (forall a :: !Enabled(p, s, a)) <==> s.pc.Returned? || Blocked(p, s)
  {
    ReachableInv(p, s);
    WeightBound(s.workers, IsGone);
    ghost var allGone := forall k :: 0 <= k < |s.workers| ==> s.workers[k].Gone?;
    assert allGone <==> forall k :: 0 <= k < |s.workers| ==> IsGone(s.workers[k]) == 1;
    assert allGone <==> s.dones == p.workers;
    if forall a :: !Enabled(p, s, a) {
      assert !Enabled(p, s, Main);
      forall k | 0 <= k < |s.workers| && !s.pc.Returned? ensures s.workers[k].Gone? {
        assert !Enabled(p, s, Worker(k));
      }
    }
  }

  // ---------- blocking needs early failures ----------

  lemma DistinctSubset(xs: seq<Failure>, ys: seq<Failure>)
    requires forall i, j :: 0 <= i < j < |xs| ==> xs[i] != xs[j]
    requires forall i :: 0 <= i < |xs| ==> xs[i] in ys
    ensures |xs| <= |ys|
  {
    if xs != [] {
      var last := xs[|xs| - 1];
      var at :| 0 <= at < |ys| && ys[at] == last;
      var rest := ys[..at] + ys[at + 1..];
      var front := xs[..|xs| - 1];
      forall i | 0 <= i < |front| ensures front[i] in rest {
        var b :| 0 <= b < |ys| && ys[b] == xs[i];
        assert rest[if b < at then b else b - 1] == xs[i];
      }
      DistinctSubset(front, rest);
    }
  }

  lemma BlockedNeedsFailures(p: Pool, s: State)
    requires Reachable(p, s) && Blocked(p, s)
    ensures CanBlock(p)
  {
    ReachableInv(p, s);
    WeightBound(s.workers, HasQuit);
    assert forall k :: 0 <= k < |s.workers| ==> HasQuit(s.workers[k]) == 1;
    assert |s.results| == p.workers;
    forall i | 0 <= i < |s.results| ensures s.results[i] in Failures(p, s.received) {
      GenuineIsFound(p, s, s.results[i]);
    }
    DistinctSubset(s.results, Failures(p, s.received));
    FailuresGrow(p, s.received, |p.nodes| - p.workers - 1);
  }

  /** With at most 2W nodes every schedule that cannot go on has returned. */
  lemma SmallClustersAlwaysReturn(p: Pool, s: State)
    requires |p.nodes| <= 2 * p.workers
    requires Reachable(p, s) && forall a :: !Enabled(p, s, a)
    ensures s.pc.Returned?
  {
    OnlyStuckState(p, s);
    if Blocked(p, s) {
      BlockedNeedsFailures(p, s);
      FailuresComplete(p, |p.nodes| - p.workers - 1);
      assert false;
    }
  }
}
