/**
 The node-check worker pool as a transition system.

 One producer (the goroutine running `Check`) creates W workers and feeds them nodes over a
 channel of capacity W; every worker quits at its first failure.  The scheduler is arbitrary: a
 schedule is any sequence of actors, each able to move when its turn comes.  Go's run-time
 panics (send on or close of a closed channel, negative WaitGroup) are part of the model, so
 that their absence is a theorem.
 */
module NodePool {

  /** What the checks that concern the node alone conclude: failed, or passed on some ESXi host. */
  datatype Node = Rejected | OnHost(host: string)

  datatype Failure = NodeFailed(index: nat) | HostFailed(host: string)

  datatype Outcome = Pass | Failed(failure: Failure)

  /** The inputs of one `Check` call; `badHosts` are the hosts whose own check fails. */
  datatype Pool = Pool(workers: nat, nodes: seq<Node>, badHosts: set<string>) {
    ghost predicate Valid() { 0 < workers }
  }

  datatype Worker =
    | Unborn
    | Receiving
    | Checking(index: nat)
    | Marking(index: nat, host: string)
    | HostChecking(host: string)
    | Reporting(failure: Failure)
    | Finishing
    | Gone

  datatype Producer =
    | Starting(i: nat)
    | Adding(i: nat)
    | Peeking(i: nat)
    | Sending(i: nat)
    | ClosingEarly
    | LeftLoop
    | ClosingLate
    | Waiting
    | Returned(outcomes: seq<Outcome>)

  /** `sent`, `received`, `adds`, `dones` and `closes` count what happened so far. */
  datatype State = State(
    pc: Producer,
    buffer: seq<nat>, closed: bool, workDone: bool,
    workers: seq<Worker>,
    counter: int,
    marked: set<string>,
    results: seq<Failure>,
    sent: nat, received: nat, adds: nat, dones: nat, closes: nat,
    panicked: bool)

  datatype Actor = Main | Worker(k: nat)

  function Init(p: Pool): State {
    State(Starting(0), [], false, false, seq(p.workers, _ => Unborn), 0, {}, [], 0, 0, 0, 0, 0, false)
  }

  predicate Enabled(p: Pool, s: State, a: Actor) {
    && !s.panicked
    && match a
       case Main => (
         match s.pc
         case Sending(_) => s.closed || |s.buffer| < p.workers
         case Waiting => s.counter == 0
         case Returned(_) => false
         case _ => true)
       case Worker(k) => (
         && k < |s.workers|
         && match s.workers[k]
            case Unborn => false
            case Receiving => s.closed || s.buffer != []
            case Gone => false
            case _ => true)
  }

  function Apply(p: Pool, s: State, a: Actor): State
    requires Enabled(p, s, a)
  {
    match a
    case Main => ProducerStep(p, s)
    case Worker(k) => WorkerStep(p, s, k)
  }

  function ProducerStep(p: Pool, s: State): State
    requires Enabled(p, s, Main)
  {
    match s.pc
    case Starting(i) =>
      if i < |s.workers|
      then s.(pc := Adding(i), workers := s.workers[i := Receiving])
      else s.(pc := Peeking(0))
    case Adding(i) =>
      s.(pc := Starting(i + 1), adds := s.adds + 1, counter := s.counter + 1)
    case Peeking(i) =>
      if i < |p.nodes|
      then s.(pc := if |s.results| > 0 then ClosingEarly else Sending(i))
      else s.(pc := LeftLoop)
    case Sending(i) =>
      if s.closed
      then s.(panicked := true)
      else s.(pc := Peeking(i + 1), buffer := s.buffer + [i], sent := s.sent + 1)
    case ClosingEarly => Close(s).(workDone := true, pc := LeftLoop)
    case LeftLoop => s.(pc := if s.workDone then Waiting else ClosingLate)
    case ClosingLate => Close(s).(pc := Waiting)
    case Waiting => s.(pc := Returned(Verdict(s.results)))
    case Returned(_) => s
  }

  function Close(s: State): State {
    s.(panicked := s.panicked || s.closed, closed := true, closes := s.closes + 1)
  }

  function Verdict(results: seq<Failure>): seq<Outcome> {
    if |results| > 0 then seq(|results|, i requires 0 <= i < |results| => Failed(results[i])) else [Pass]
  }

  function WorkerStep(p: Pool, s: State, k: nat): State
    requires Enabled(p, s, Worker(k))
  {
    match s.workers[k]
    case Unborn => s
    case Receiving =>
      if s.buffer != []
      then s.(workers := s.workers[k := Checking(s.buffer[0])], buffer := s.buffer[1..], received := s.received + 1)
      else s.(workers := s.workers[k := Finishing])
    case Checking(i) =>
      if i < |p.nodes| && p.nodes[i].OnHost?
      then s.(workers := s.workers[k := Marking(i, p.nodes[i].host)])
      else s.(workers := s.workers[k := Reporting(NodeFailed(i))])
    case Marking(_, h) =>
      if h in s.marked
      then s.(workers := s.workers[k := Receiving])
      else s.(workers := s.workers[k := HostChecking(h)], marked := s.marked + {h})
    case HostChecking(h) =>
      s.(workers := s.workers[k := if h in p.badHosts then Reporting(HostFailed(h)) else Receiving])
    case Reporting(f) =>
      s.(workers := s.workers[k := Finishing], results := s.results + [f])
    case Finishing =>
      s.(workers := s.workers[k := Gone], counter := s.counter - 1, dones := s.dones + 1, panicked := s.counter <= 0)
    case Gone => s
  }

  /** `schedule` can be played from `s`. */
  predicate Playable(p: Pool, s: State, schedule: seq<Actor>)
    decreases |schedule|
  {
    schedule != [] ==> Enabled(p, s, schedule[0]) && Playable(p, Apply(p, s, schedule[0]), schedule[1..])
  }

  function Play(p: Pool, s: State, schedule: seq<Actor>): State
    requires Playable(p, s, schedule)
    decreases |schedule|
  {
    if schedule == [] then s else Play(p, Apply(p, s, schedule[0]), schedule[1..])
  }

  ghost predicate Reaches(p: Pool, s: State, t: State) {
    exists schedule :: Playable(p, s, schedule) && Play(p, s, schedule) == t
  }

  ghost predicate Reachable(p: Pool, s: State) { Reaches(p, Init(p), s) }

  /** The failures a sequential check of the first `j` nodes finds, in order, if it never stops early. */
  function Failures(p: Pool, j: nat): (fs: seq<Failure>)
    requires j <= |p.nodes|
  {
    if j == 0 then []
    else
      var before := Failures(p, j - 1);
      match p.nodes[j - 1]
      case Rejected => before + [NodeFailed(j - 1)]
      case OnHost(h) => if h in p.badHosts && h !in Hosts(p, j - 1) then before + [HostFailed(h)] else before
  }

  /** The hosts the first `j` nodes run on. */
  function Hosts(p: Pool, j: nat): set<string>
    requires j <= |p.nodes|
  {
    set i | 0 <= i < j && p.nodes[i].OnHost? :: p.nodes[i].host
  }

  /** Every node passes its own checks and every host referenced passes the host check. */
  ghost predicate AllHealthy(p: Pool) {
    forall i :: 0 <= i < |p.nodes| ==> p.nodes[i].OnHost? && p.nodes[i].host !in p.badHosts
  }

  /** The producer cannot send, and nobody is left to receive. */
  ghost predicate Blocked(p: Pool, s: State) {
    && !s.panicked
    && s.pc.Sending? && !s.closed && |s.buffer| == p.workers
    && forall k :: 0 <= k < |s.workers| ==> s.workers[k].Gone?
  }

  /** A caller can test this before the call: enough failures early enough for the pool to block. */
  predicate CanBlock(p: Pool) {
    p.workers < |p.nodes| && |Failures(p, |p.nodes| - p.workers - 1)| >= p.workers
  }
}
