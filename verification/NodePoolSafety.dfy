/**
 What every step of the worker pool keeps, and what follows for every schedule.
 */
module NodePoolSafety {
  import opened NodePool

  // ---------- counting workers ----------

  function Weight(ws: seq<Worker>, f: Worker -> nat): nat {
    if ws == [] then 0 else f(ws[0]) + Weight(ws[1..], f)
  }

  lemma {:induction false} WeightUpdate(ws: seq<Worker>, f: Worker -> nat, k: nat, w: Worker)
    requires k < |ws|
    ensures Weight(ws[k := w], f) == Weight(ws, f) - f(ws[k]) + f(w)
  {
    if k == 0 {
      assert ws[k := w][1..] == ws[1..];
    } else {
      assert ws[k := w][1..] == ws[1..][k - 1 := w];
      WeightUpdate(ws[1..], f, k - 1, w);
    }
  }

  /** A 0/1 weight is at most the number of workers, and equal to it only when all weigh 1. */
  lemma {:induction false} WeightBound(ws: seq<Worker>, f: Worker -> nat)
    requires forall w :: f(w) <= 1
    ensures Weight(ws, f) <= |ws|
    ensures Weight(ws, f) == |ws| <==> forall k :: 0 <= k < |ws| ==> f(ws[k]) == 1
    ensures Weight(ws, f) == 0 <==> forall k :: 0 <= k < |ws| ==> f(ws[k]) == 0
  {
    if ws != [] {
      WeightBound(ws[1..], f);
      assert ws == [ws[0]] + ws[1..];
    }
  }

  function IsGone(w: Worker): nat { if w.Gone? then 1 else 0 }

  function HasQuit(w: Worker): nat { if w.Gone? || w.Finishing? then 1 else 0 }

  // ---------- the invariant ----------

  /** Worker `k` is in the middle of finding out about, or holds, this failure. */
  function Token(w: Worker): seq<Failure> {
    match w
    case Checking(i) => [NodeFailed(i)]
    case Marking(i, _) => [NodeFailed(i)]
    case HostChecking(h) => [HostFailed(h)]
    case Reporting(f) => [f]
    case _ => []
  }

  ghost predicate Control(p: Pool, s: State) {
    && |s.workers| == p.workers && !s.panicked
    && s.closes == (if s.closed then 1 else 0)
    && s.sent <= |p.nodes|
    && (match s.pc
        case Starting(i) => i <= p.workers && s.adds == i && Fresh(s, i)
        case Adding(i) => i < p.workers && s.adds == i && Fresh(s, i + 1)
        case Peeking(i) => i == s.sent && !s.closed && !s.workDone
        case Sending(i) => i == s.sent && i < |p.nodes| && !s.closed && !s.workDone
        case ClosingEarly => !s.closed && !s.workDone && s.results != []
        case LeftLoop => s.closed == s.workDone && (s.sent == |p.nodes| || s.results != [])
                         && (!s.closed ==> s.sent == |p.nodes|)
        case ClosingLate => !s.closed && !s.workDone && s.sent == |p.nodes|
        case Waiting => s.closed && (s.sent == |p.nodes| || s.results != [])
        case Returned(o) => s.closed && (s.sent == |p.nodes| || s.results != [])
                            && s.dones == p.workers && o == Verdict(s.results))
    && (Created(s) ==> s.adds == p.workers && forall k :: 0 <= k < |s.workers| ==> !s.workers[k].Unborn?)
  }

  predicate Created(s: State) { !s.pc.Starting? && !s.pc.Adding? }

  /** The first `i` workers run but nothing has been sent, so all of them wait. */
  ghost predicate Fresh(s: State, i: nat) {
    && s.buffer == [] && s.sent == 0 && !s.closed && !s.workDone && s.results == [] && s.marked == {}
    && forall k :: 0 <= k < |s.workers| ==> s.workers[k] == if k < i then Receiving else Unborn
  }

  /** The channel is a window on the node list: sent = buffered + received. */
  ghost predicate Channel(p: Pool, s: State) {
    && |s.buffer| <= p.workers
    && s.sent == s.received + |s.buffer|
    && forall j :: 0 <= j < |s.buffer| ==> s.buffer[j] == s.received + j
  }

  ghost predicate Counting(s: State) {
    && s.counter == s.adds - s.dones
    && s.dones == Weight(s.workers, IsGone)
    && |s.results| <= Weight(s.workers, HasQuit)
    && (|s.results| < Weight(s.workers, HasQuit) ==> s.closed && s.buffer == [])
  }

  /** `f` is a failure that the sequential check finds among the nodes received so far. */
  ghost predicate Genuine(p: Pool, s: State, f: Failure) {
    match f
    case NodeFailed(i) => i < s.received && i < |p.nodes| && p.nodes[i].Rejected?
    case HostFailed(h) => h in s.marked && h in p.badHosts
  }

  ghost predicate Sane(p: Pool, s: State, w: Worker) {
    match w
    case Checking(i) => i < s.received
    case Marking(i, h) => i < s.received && i < |p.nodes| && p.nodes[i] == OnHost(h)
    case HostChecking(h) => h in s.marked
    case Reporting(f) => Genuine(p, s, f)
    case _ => true
  }

  /** No failure is held by two workers, held and reported, or reported twice. */
  ghost predicate Ledger(p: Pool, s: State) {
    && s.received <= |p.nodes|
    && (forall h :: h in s.marked ==> exists i :: 0 <= i < s.received && p.nodes[i] == OnHost(h))
    && (forall k :: 0 <= k < |s.workers| ==> Sane(p, s, s.workers[k]))
    && (forall i :: 0 <= i < |s.results| ==> Genuine(p, s, s.results[i]))
    && Distinct(s.workers, s.results)
  }

  ghost predicate Distinct(ws: seq<Worker>, rs: seq<Failure>) {
    && (forall i, j :: 0 <= i < j < |rs| ==> rs[i] != rs[j])
    && (forall k, l :: 0 <= k < l < |ws| && Token(ws[k]) != [] ==> Token(ws[k]) != Token(ws[l]))
    && (forall k, i :: 0 <= k < |ws| && 0 <= i < |rs| ==> Token(ws[k]) != [rs[i]])
  }

  /** The failure is reported or about to be. */
  ghost predicate Seen(s: State, f: Failure) {
    f in s.results || Reporting(f) in s.workers
  }

  /** No received node is forgotten. */
  ghost predicate Accounted(p: Pool, s: State, j: nat)
    requires j < |p.nodes|
  {
    || Checking(j) in s.workers
    || match p.nodes[j]
       case Rejected => Seen(s, NodeFailed(j))
       case OnHost(h) => h in s.marked || Marking(j, h) in s.workers
  }

  ghost predicate Coverage(p: Pool, s: State) {
    && s.received <= |p.nodes|
    && (forall j :: 0 <= j < s.received ==> Accounted(p, s, j))
    && (forall h :: h in s.marked && h in p.badHosts ==> Seen(s, HostFailed(h)) || HostChecking(h) in s.workers)
  }

  ghost predicate Inv(p: Pool, s: State) {
    Control(p, s) && Channel(p, s) && Counting(s) && Ledger(p, s) && Coverage(p, s)
  }

  // ---------- preservation ----------

  lemma InitInv(p: Pool)
    ensures Inv(p, Init(p))
  {
    WeightBound(Init(p).workers, IsGone);
    WeightBound(Init(p).workers, HasQuit);
  }

  lemma MainKeepsControl(p: Pool, s: State)
    requires Control(p, s) && Channel(p, s) && Counting(s) && Enabled(p, s, Main)
    ensures Control(p, ProducerStep(p, s)) && Channel(p, ProducerStep(p, s))
  {}

  lemma MainKeepsCounting(p: Pool, s: State)
    requires Control(p, s) && Counting(s) && Enabled(p, s, Main)
    ensures Counting(ProducerStep(p, s))
  {
    if s.pc.Starting? && s.pc.i < |s.workers| {
      WeightUpdate(s.workers, IsGone, s.pc.i, Receiving);
      WeightUpdate(s.workers, HasQuit, s.pc.i, Receiving);
    }
  }

  lemma MainKeepsLedger(p: Pool, s: State)
    requires Control(p, s) && Channel(p, s) && Ledger(p, s) && Coverage(p, s) && Enabled(p, s, Main)
    ensures Ledger(p, ProducerStep(p, s)) && Coverage(p, ProducerStep(p, s))
  {
    var t := ProducerStep(p, s);
    if s.pc.Starting? && s.pc.i < |s.workers| {
    } else {
      assert t.workers == s.workers && t.results == s.results && t.marked == s.marked && t.received == s.received;
      assert forall w | Sane(p, s, w) :: Sane(p, t, w);
      assert forall f | Genuine(p, s, f) :: Genuine(p, t, f);
      assert forall j | 0 <= j < t.received :: Accounted(p, s, j) ==> Accounted(p, t, j);
    }
  }

  lemma MainKeepsInv(p: Pool, s: State)
    requires Inv(p, s) && Enabled(p, s, Main)
    ensures Inv(p, ProducerStep(p, s))
  {
    MainKeepsControl(p, s);
    MainKeepsCounting(p, s);
    MainKeepsLedger(p, s);
  }

  /** A worker that can move at all moves after the last worker was added. */
  lemma MoverIsCreated(p: Pool, s: State, k: nat)
    requires Control(p, s) && Counting(s) && Enabled(p, s, Worker(k))
    ensures Created(s) && s.dones < p.workers && !s.pc.Returned?
  {
    WeightBound(s.workers, IsGone);
    assert IsGone(s.workers[k]) == 0;
  }

  lemma WorkerKeepsControl(p: Pool, s: State, k: nat)
    requires Control(p, s) && Counting(s) && Enabled(p, s, Worker(k))
    ensures Control(p, WorkerStep(p, s, k))
  {
    MoverIsCreated(p, s, k);
  }

  lemma WorkerKeepsChannel(p: Pool, s: State, k: nat)
    requires Channel(p, s) && Enabled(p, s, Worker(k))
    ensures Channel(p, WorkerStep(p, s, k))
  {}

  lemma WorkerWeights(p: Pool, s: State, k: nat)
    requires Enabled(p, s, Worker(k))
    ensures var t := WorkerStep(p, s, k);
            && Weight(t.workers, IsGone) == Weight(s.workers, IsGone) - IsGone(s.workers[k]) + IsGone(t.workers[k])
            && Weight(t.workers, HasQuit) == Weight(s.workers, HasQuit) - HasQuit(s.workers[k]) + HasQuit(t.workers[k])
  {
    var t := WorkerStep(p, s, k);
    WeightUpdate(s.workers, IsGone, k, t.workers[k]);
    WeightUpdate(s.workers, HasQuit, k, t.workers[k]);
    assert t.workers == s.workers[k := t.workers[k]];
  }

  lemma WorkerKeepsCounting(p: Pool, s: State, k: nat)
    requires Counting(s) && Enabled(p, s, Worker(k))
    ensures Counting(WorkerStep(p, s, k))
  {
    WorkerWeights(p, s, k);
  }

  /** What is sane or genuine stays so: nodes stay received and hosts stay marked. */
  lemma SanityIsStable(p: Pool, s: State, t: State, w: Worker)
    requires s.received <= t.received && s.marked <= t.marked
    ensures Sane(p, s, w) ==> Sane(p, t, w)
    ensures forall f :: Genuine(p, s, f) ==> Genuine(p, t, f)
  {}

  lemma WorkerKeepsMarks(p: Pool, s: State, k: nat)
    requires Channel(p, s) && Ledger(p, s) && s.sent <= |p.nodes| && Enabled(p, s, Worker(k))
    ensures var t := WorkerStep(p, s, k);
            && s.received <= t.received <= |p.nodes| && s.marked <= t.marked
            && (forall h :: h in t.marked ==> exists i :: 0 <= i < t.received && p.nodes[i] == OnHost(h))
            && Sane(p, t, t.workers[k])
  {
    assert Sane(p, s, s.workers[k]);
  }

  lemma WorkerKeepsSanity(p: Pool, s: State, k: nat)
    requires Channel(p, s) && Ledger(p, s) && s.sent <= |p.nodes| && Enabled(p, s, Worker(k))
    ensures var t := WorkerStep(p, s, k);
            && (forall l :: 0 <= l < |t.workers| ==> Sane(p, t, t.workers[l]))
            && (forall i :: 0 <= i < |t.results| ==> Genuine(p, t, t.results[i]))
  {
    var t := WorkerStep(p, s, k);
    WorkerKeepsMarks(p, s, k);
    SanityIsStable(p, s, t, s.workers[k]);
    assert t.workers == s.workers[k := t.workers[k]];
    forall l | 0 <= l < |t.workers| && l != k ensures Sane(p, t, t.workers[l]) {
      SanityIsStable(p, s, t, s.workers[l]);
    }
    assert Sane(p, s, s.workers[k]);
    assert t.results == s.results || t.results == s.results + [s.workers[k].failure];
  }

  lemma DistinctMove(ws: seq<Worker>, rs: seq<Failure>, k: nat, w: Worker)
    requires Distinct(ws, rs) && k < |ws|
    requires Token(w) == [] || forall l :: 0 <= l < |ws| && l != k ==> Token(ws[l]) != Token(w)
    requires forall i :: 0 <= i < |rs| ==> Token(w) != [rs[i]]
    ensures Distinct(ws[k := w], rs)
  {}

  lemma DistinctReport(ws: seq<Worker>, rs: seq<Failure>, k: nat, f: Failure)
    requires Distinct(ws, rs) && k < |ws| && ws[k] == Reporting(f)
    ensures Distinct(ws[k := Finishing], rs + [f])
  {
    assert Token(ws[k]) == [f];
  }

  /** The token worker `k` holds after its step is no other worker's. */
  lemma TokenIsNobodyElses(p: Pool, s: State, k: nat, l: nat)
    requires Ledger(p, s) && Enabled(p, s, Worker(k)) && l < |s.workers| && l != k
    requires forall j :: 0 <= j < |s.buffer| ==> s.buffer[j] >= s.received
    ensures var w := WorkerStep(p, s, k).workers[k]; Token(w) != [] ==> Token(s.workers[l]) != Token(w)
  {
    assert Sane(p, s, s.workers[l]) && Sane(p, s, s.workers[k]);
    assert Token(s.workers[k]) != [] ==> Token(s.workers[k]) != Token(s.workers[l]);
  }

  /** Nor was it reported before. */
  lemma TokenIsUnreported(p: Pool, s: State, k: nat, i: nat)
    requires Ledger(p, s) && Enabled(p, s, Worker(k)) && i < |s.results|
    requires forall j :: 0 <= j < |s.buffer| ==> s.buffer[j] >= s.received
    ensures Token(WorkerStep(p, s, k).workers[k]) != [s.results[i]]
  {
    assert Sane(p, s, s.workers[k]) && Genuine(p, s, s.results[i]);
    assert Token(s.workers[k]) != [s.results[i]];
  }

  lemma WorkerKeepsDistinct(p: Pool, s: State, k: nat)
    requires Ledger(p, s) && Enabled(p, s, Worker(k))
    requires forall j :: 0 <= j < |s.buffer| ==> s.buffer[j] >= s.received
    ensures Distinct(WorkerStep(p, s, k).workers, WorkerStep(p, s, k).results)
  {
    var t := WorkerStep(p, s, k);
    if s.workers[k].Reporting? {
      DistinctReport(s.workers, s.results, k, s.workers[k].failure);
    } else {
      forall l | 0 <= l < |s.workers| && l != k
        ensures Token(t.workers[k]) != [] ==> Token(s.workers[l]) != Token(t.workers[k])
      {
        TokenIsNobodyElses(p, s, k, l);
      }
      forall i | 0 <= i < |s.results| ensures Token(t.workers[k]) != [s.results[i]] { TokenIsUnreported(p, s, k, i); }
      DistinctMove(s.workers, s.results, k, t.workers[k]);
      assert t.workers == s.workers[k := t.workers[k]];
    }
  }

  lemma WorkerKeepsLedger(p: Pool, s: State, k: nat)
    requires Channel(p, s) && Ledger(p, s) && s.sent <= |p.nodes| && Enabled(p, s, Worker(k))
    ensures Ledger(p, WorkerStep(p, s, k))
  {
    WorkerKeepsMarks(p, s, k);
    WorkerKeepsSanity(p, s, k);
    WorkerKeepsDistinct(p, s, k);
  }

  lemma WorkerKeepsCoverage(p: Pool, s: State, k: nat)
    requires Channel(p, s) && Coverage(p, s) && s.sent <= |p.nodes| && Enabled(p, s, Worker(k))
    requires Sane(p, s, s.workers[k])
    ensures Coverage(p, WorkerStep(p, s, k))
  {
    var t := WorkerStep(p, s, k);
    assert t.workers[k] in t.workers;
    forall w | w in s.workers && w != s.workers[k] ensures w in t.workers {
      var l :| 0 <= l < |s.workers| && s.workers[l] == w;
      assert t.workers[l] == w;
    }
    forall j | 0 <= j < t.received ensures Accounted(p, t, j) {
      if j < s.received { assert Accounted(p, s, j); }
    }
  }

  lemma WorkerKeepsInv(p: Pool, s: State, k: nat)
    requires Inv(p, s) && Enabled(p, s, Worker(k))
    ensures Inv(p, WorkerStep(p, s, k))
  {
    WorkerKeepsControl(p, s, k);
    WorkerKeepsChannel(p, s, k);
    WorkerKeepsCounting(p, s, k);
    WorkerKeepsLedger(p, s, k);
    WorkerKeepsCoverage(p, s, k);
  }

  lemma {:induction false} PlayKeepsInv(p: Pool, s: State, schedule: seq<Actor>)
    requires Inv(p, s) && Playable(p, s, schedule)
    ensures Inv(p, Play(p, s, schedule))
    decreases |schedule|
  {
    if schedule != [] {
      match schedule[0] {
        case Main => MainKeepsInv(p, s);
        case Worker(k) => WorkerKeepsInv(p, s, k);
      }
      PlayKeepsInv(p, Apply(p, s, schedule[0]), schedule[1..]);
    }
  }

  lemma ReachableInv(p: Pool, s: State)
    requires Reachable(p, s)
    ensures Inv(p, s)
  {
    var schedule :| Playable(p, Init(p), schedule) && Play(p, Init(p), schedule) == s;
    InitInv(p);
    PlayKeepsInv(p, Init(p), schedule);
  }
}
