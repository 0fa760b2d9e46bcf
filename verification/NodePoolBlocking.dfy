/**
 The schedule that blocks the pool.  It is built in four phases: all workers start; the nodes are
 handed out one at a time and every worker that meets a failure is held just before it reports;
 the producer, still seeing no result, fills the channel; then the workers report and quit.
 */
module NodePoolBlocking {
  import opened NodePool
  import opened NodePoolSafety
  import opened NodePoolTheorems

  // ---------- composing schedules ----------

  lemma {:induction false} PlayConcat(p: Pool, s: State, a: seq<Actor>, b: seq<Actor>)
    requires Playable(p, s, a) && Playable(p, Play(p, s, a), b)
    ensures Playable(p, s, a + b) && Play(p, s, a + b) == Play(p, Play(p, s, a), b)
    decreases |a|
  {
    if a == [] {
      assert a + b == b;
    } else {
      PlayConcat(p, Apply(p, s, a[0]), a[1..], b);
      assert (a + b)[1..] == a[1..] + b;
    }
  }

  lemma Then(p: Pool, s: State, t: State, a: Actor)
    requires Reachable(p, s) && Enabled(p, s, a) && t == Apply(p, s, a)
    ensures Reachable(p, t)
  {
    var before :| Playable(p, Init(p), before) && Play(p, Init(p), before) == s;
    assert Playable(p, t, []) && Play(p, t, []) == t;
    assert [a][1..] == [];
    assert Playable(p, s, [a]) && Play(p, s, [a]) == t;
    PlayConcat(p, Init(p), before, [a]);
  }

  // ---------- phase 1: every worker waits ----------

  function Crew(w: nat, i: nat): seq<Worker> {
    seq(w, k => if k < i then Receiving else Unborn)
  }

  function Born(p: Pool, i: nat): State {
    Init(p).(pc := Starting(i), workers := Crew(p.workers, i), adds := i, counter := i)
  }

  lemma {:induction false} ReachBorn(p: Pool, i: nat)
    requires i <= p.workers
    ensures Reachable(p, Born(p, i))
  {
    if i == 0 {
      assert Crew(p.workers, 0) == Init(p).workers;
      assert Playable(p, Init(p), []) && Play(p, Init(p), []) == Born(p, 0);
    } else {
      ReachBorn(p, i - 1);
      assert Crew(p.workers, i - 1)[i - 1 := Receiving] == Crew(p.workers, i);
      var mid := Born(p, i - 1).(pc := Adding(i - 1), workers := Crew(p.workers, i));
      Then(p, Born(p, i - 1), mid, Main);
      Then(p, mid, Born(p, i), Main);
    }
  }

  // ---------- phase 2: one node at a time, failures held back ----------

  /** The workers after `fs` was found: one holds each failure, the others wait. */
  function Holding(w: nat, fs: seq<Failure>): (ws: seq<Worker>)
    ensures |ws| == w
  {
    seq(w, k requires 0 <= k => if k < |fs| then Reporting(fs[k]) else Receiving)
  }

  function Busy(p: Pool, j: nat): State
    requires j <= |p.nodes|
  {
    State(Peeking(j), [], false, false, Holding(p.workers, Failures(p, j)), p.workers,
          Hosts(p, j), [], j, j, p.workers, 0, 0, false)
  }

  lemma ReachBusyStep(p: Pool, j: nat)
    requires j < |p.nodes| && |Failures(p, j)| < p.workers
    requires Reachable(p, Busy(p, j))
    ensures Reachable(p, Busy(p, j + 1))
  {
    var s := Busy(p, j);
    var fs := Failures(p, j);
    var k := |fs|;
    var s1 := s.(pc := Sending(j));
    Then(p, s, s1, Main);
    var s2 := s1.(pc := Peeking(j + 1), buffer := [j], sent := j + 1);
    assert [] + [j] == [j];
    Then(p, s1, s2, Main);
    var s3 := s2.(workers := s.workers[k := Checking(j)], buffer := [], received := j + 1);
    Then(p, s2, s3, Worker(k));
    assert forall h :: h in Hosts(p, j + 1) <==> h in Hosts(p, j) || p.nodes[j] == OnHost(h);
    match p.nodes[j] {
      case Rejected =>
        assert s.workers[k := Reporting(NodeFailed(j))] == Holding(p.workers, fs + [NodeFailed(j)]);
        assert Hosts(p, j + 1) == Hosts(p, j);
        Then(p, s3, Busy(p, j + 1), Worker(k));
      case OnHost(h) =>
        var s4 := s3.(workers := s.workers[k := Marking(j, h)]);
        Then(p, s3, s4, Worker(k));
        assert s.workers[k := Receiving] == s.workers;
        if h in Hosts(p, j) {
          assert Hosts(p, j + 1) == Hosts(p, j);
          Then(p, s4, Busy(p, j + 1), Worker(k));
        } else {
          assert Hosts(p, j + 1) == Hosts(p, j) + {h};
          var s5 := s4.(workers := s.workers[k := HostChecking(h)], marked := Hosts(p, j + 1));
          Then(p, s4, s5, Worker(k));
          assert s.workers[k := Reporting(HostFailed(h))] == Holding(p.workers, fs + [HostFailed(h)]);
          Then(p, s5, Busy(p, j + 1), Worker(k));
        }
    }
  }

  lemma {:induction false} ReachBusy(p: Pool, j: nat)
    requires j <= |p.nodes|
    requires forall i :: 0 <= i < j ==> |Failures(p, i)| < p.workers
    ensures Reachable(p, Busy(p, j))
  {
    if j == 0 {
      ReachBorn(p, p.workers);
      assert Crew(p.workers, p.workers) == Holding(p.workers, []);
      Then(p, Born(p, p.workers), Busy(p, 0), Main);
    } else {
      ReachBusy(p, j - 1);
      ReachBusyStep(p, j - 1);
    }
  }

  // ---------- phase 3: the producer fills the channel ----------

  function Filled(p: Pool, m: nat, b: nat): State
    requires m + b <= |p.nodes|
  {
    Busy(p, m).(pc := Peeking(m + b), buffer := seq(b, i requires 0 <= i => m + i), sent := m + b)
  }

  lemma {:induction false} ReachFilled(p: Pool, m: nat, b: nat)
    requires m + b <= |p.nodes| && b <= p.workers && Reachable(p, Busy(p, m))
    ensures Reachable(p, Filled(p, m, b))
  {
    if b > 0 {
      ReachFilled(p, m, b - 1);
      var s := Filled(p, m, b - 1);
      Then(p, s, s.(pc := Sending(m + b - 1)), Main);
      assert s.buffer + [m + b - 1] == Filled(p, m, b).buffer;
      Then(p, s.(pc := Sending(m + b - 1)), Filled(p, m, b), Main);
    } else {
      assert Filled(p, m, 0) == Busy(p, m);
    }
  }

  // ---------- phase 4: the workers report and quit ----------

  function Quit(p: Pool, m: nat, fs: seq<Failure>, k: nat): State
    requires m + p.workers < |p.nodes| && k <= |fs| == p.workers
  {
    Filled(p, m, p.workers).(
      pc := Sending(m + p.workers),
      workers := seq(p.workers, i requires 0 <= i < |fs| => if i < k then Gone else Reporting(fs[i])),
      results := fs[..k], dones := k, counter := p.workers - k)
  }

  lemma {:induction false} ReachQuit(p: Pool, m: nat, fs: seq<Failure>, k: nat)
    requires m + p.workers < |p.nodes| && k <= |fs| == p.workers
    requires Reachable(p, Quit(p, m, fs, 0))
    ensures Reachable(p, Quit(p, m, fs, k))
  {
    if k > 0 {
      ReachQuit(p, m, fs, k - 1);
      var s, t := Quit(p, m, fs, k - 1), Quit(p, m, fs, k);
      assert fs[..k - 1] + [fs[k - 1]] == fs[..k];
      var mid := s.(workers := s.workers[k - 1 := Finishing], results := fs[..k]);
      Then(p, s, mid, Worker(k - 1));
      assert mid.workers[k - 1 := Gone] == t.workers;
      Then(p, mid, t, Worker(k - 1));
    }
  }

  // ---------- the characterisation ----------

  /** The shortest prefix with `w` failures. */
  lemma {:induction false} FirstPrefix(p: Pool, w: nat, n: nat) returns (m: nat)
    requires 0 < w && n <= |p.nodes| && |Failures(p, n)| >= w
    ensures m <= n && |Failures(p, m)| == w
    ensures forall i :: 0 <= i < m ==> |Failures(p, i)| < w
  {
    FailuresGrow(p, n - 1, n);
    if |Failures(p, n - 1)| >= w {
      m := FirstPrefix(p, w, n - 1);
    } else {
      m := n;
      forall i | 0 <= i < m ensures |Failures(p, i)| < w { FailuresGrow(p, i, n - 1); }
    }
  }

  lemma FailuresCanBlock(p: Pool) returns (s: State)
    requires p.Valid() && CanBlock(p)
    ensures Reachable(p, s) && Blocked(p, s)
  {
    var m := FirstPrefix(p, p.workers, |p.nodes| - p.workers - 1);
    var fs := Failures(p, m);
    ReachBusy(p, m);
    ReachFilled(p, m, p.workers);
    var full := Filled(p, m, p.workers);
    assert full.workers == Quit(p, m, fs, 0).workers;
    Then(p, full, Quit(p, m, fs, 0), Main);
    ReachQuit(p, m, fs, p.workers);
    s := Quit(p, m, fs, p.workers);
  }

  /** Some schedule of this check blocks for good. */
  ghost predicate SomeScheduleBlocks(p: Pool) { exists s :: Reachable(p, s) && Blocked(p, s) }

  /** Some schedule blocks the pool for good exactly when the failures come early enough. */
  lemma BlocksExactlyWhen(p: Pool)
    requires p.Valid()
    ensures SomeScheduleBlocks(p) <==> CanBlock(p)
  {
    if CanBlock(p) {
      var s := FailuresCanBlock(p);
    }
    if s :| Reachable(p, s) && Blocked(p, s) {
      BlockedNeedsFailures(p, s);
    }
  }

  const WORKER_COUNT := 10

  /** With the ten workers of the operator, 20 nodes never block and 21 nodes can. */
  lemma TwentyNodesIsTheLimit(n: nat)
    ensures (exists nodes: seq<Node>, bad: set<string> ::
               |nodes| == n && SomeScheduleBlocks(Pool(WORKER_COUNT, nodes, bad)))
            <==> n > 20
  {
    if n > 20 {
      var nodes := seq(n, _ => Rejected);
      var p := Pool(WORKER_COUNT, nodes, {});
      AllRejected(p, n - 11);
      BlocksExactlyWhen(p);
      assert |nodes| == n && SomeScheduleBlocks(p);
    }
    forall nodes: seq<Node>, bad: set<string> | |nodes| == n && SomeScheduleBlocks(Pool(WORKER_COUNT, nodes, bad))
      ensures n > 20
    {
      BlocksExactlyWhen(Pool(WORKER_COUNT, nodes, bad));
      FailuresComplete(Pool(WORKER_COUNT, nodes, bad), n - 11);
    }
  }

  lemma {:induction false} AllRejected(p: Pool, j: nat)
    requires j <= |p.nodes| && forall i :: 0 <= i < |p.nodes| ==> p.nodes[i].Rejected?
    ensures |Failures(p, j)| == j
  {
    if j > 0 { AllRejected(p, j - 1); }
  }
}
