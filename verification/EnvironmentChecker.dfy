/** The composite environment check: when it runs, what it concludes, and when it runs next. */
module EnvironmentChecker {
  import opened Platform
  import opened Backoff
  import opened CheckResults

  const CAP: nat := HOUR

  datatype Checker = Checker(backoff: Backoff, nextCheck: int, lastCheck: int)

  function NewChecker(now: int): Checker { Checker(Default(CAP), now, 0) }

  /** The clock readings, the jitter and the results of the individual checks of one call. */
  datatype CheckCall = CheckCall(gate: int, started: int, jitter: nat, results: seq<CheckResult>)

  datatype Report = NotRun | Ran(delay: int, result: CheckResult)

  /** What a call does, in terms of the state before it. */
  function AfterCheck(c: Checker, call: CheckCall): (Checker, Report) {
    if call.gate <= c.nextCheck then (c, NotRun)
    else if Worst(call.results).action == Pass then
      (Checker(Default(CAP), call.started + CAP, call.started), Ran(CAP, PassResult()))
    else
      var delay := c.backoff.duration + call.jitter;
      (Checker(Step(c.backoff), call.started + delay, call.started), Ran(delay, Worst(call.results)))
  }

  class EnvironmentChecker {
    var backoff: Backoff
    var nextCheck: int
    var lastCheck: int

    function State(): Checker
      reads this
    {
      Checker(backoff, nextCheck, lastCheck)
    }

    constructor (now: int)
      ensures State() == NewChecker(now)
    {
      backoff, nextCheck, lastCheck := Default(CAP), now, 0;
    }

    method Check(call: CheckCall) returns (delay: int, result: CheckResult, ran: bool)
      modifies this
      ensures State() == AfterCheck(old(State()), call).0
      ensures (if ran then Ran(delay, result) else NotRun) == AfterCheck(old(State()), call).1
    {
      if call.gate <= nextCheck { return 0, CheckResult(None, NoStatus, Pass, ""), false; }
      var nextErrorDelay := backoff.duration + call.jitter;
      backoff := Step(backoff);
      lastCheck := call.started;
      var overall := CheckResult(None, NoStatus, Pass, "");
      for i := 0 to |call.results|
        invariant overall == Worst(call.results[..i])
      {
        assert call.results[..i + 1][..i] == call.results[..i];
        if Rank(call.results[i].action) >= Rank(overall.action) { overall := call.results[i]; }
      }
      assert call.results[..|call.results|] == call.results;
      if Rank(overall.action) > Rank(Pass) {
        nextCheck := lastCheck + nextErrorDelay;
        return nextErrorDelay, overall, true;
      }
      backoff := Default(CAP);
      nextCheck := lastCheck + CAP;
      return CAP, PassResult(), true;
    }

    method ResetExpBackoff(now: int)
      modifies this
      ensures State() == Checker(Default(CAP), now, old(lastCheck))
    {
      nextCheck := now;
      backoff := Default(CAP);
    }
  }

  // ---------- over every sequence of calls and resets ----------

  datatype Move = Check(call: CheckCall) | Reset(now: int)

  function After(c: Checker, m: Move): Checker {
    match m
    case Check(call) => AfterCheck(c, call).0
    case Reset(now) => Checker(Default(CAP), now, c.lastCheck)
  }

  function Run(now: int, moves: seq<Move>): Checker {
    if moves == [] then NewChecker(now) else After(Run(now, moves[..|moves| - 1]), moves[|moves| - 1])
  }

  /** How many executed checks failed since the last pass, reset or start. */
  function Streak(now: int, moves: seq<Move>): nat {
    if moves == [] then 0
    else
      var before, m := moves[..|moves| - 1], moves[|moves| - 1];
      match m
      case Reset(_) => 0
      case Check(call) =>
        match AfterCheck(Run(now, before), call).1
        case NotRun => Streak(now, before)
        case Ran(_, r) => if r.action == Pass then 0 else Streak(now, before) + 1
  }

  lemma {:induction false} StreakSetsBackoff(now: int, moves: seq<Move>)
    ensures Run(now, moves).backoff == Steps(Default(CAP), Streak(now, moves))
  {
    if moves != [] { StreakSetsBackoff(now, moves[..|moves| - 1]); }
  }

  /**
   After any history with k failures in a row, the next executed check waits min(2^k minutes, one hour)
   plus jitter if it fails, and exactly one hour if it passes; it is executed exactly when it is due.
   */
  lemma DelayAfterStreak(now: int, moves: seq<Move>, call: CheckCall)
    ensures var c, k := Run(now, moves), Streak(now, moves);
            var (after, report) := AfterCheck(c, call);
            && (report.NotRun? <==> call.gate <= c.nextCheck)
            && (report.NotRun? ==> after == c)
            && (report.Ran? ==> after.nextCheck == call.started + report.delay && after.lastCheck == call.started)
            && (report.Ran? && report.result.action == Pass ==> report.delay == HOUR && after.backoff == Default(HOUR))
            && (report.Ran? && report.result.action != Pass ==>
                 report.delay == (if Pow2(k) * MINUTE <= HOUR then Pow2(k) * MINUTE else HOUR) + call.jitter)
  {
    StreakSetsBackoff(now, moves);
    BaseDelay(CAP, Streak(now, moves));
  }

  /** Without a reset in between, two executed checks are at least a minute apart. */
  lemma {:induction false} ChecksAreSpaced(c: Checker, moves: seq<Move>, last: CheckCall)
    requires c.backoff.duration >= MINUTE && c.backoff.cap == CAP && c.nextCheck >= c.lastCheck + MINUTE
    requires forall i :: 0 <= i < |moves| ==> moves[i].Check?
    requires forall i :: 0 <= i < |moves| ==> moves[i].call.gate <= moves[i].call.started
    ensures var end := RunFrom(c, moves);
            end.backoff.duration >= MINUTE && end.backoff.cap == CAP && end.nextCheck >= end.lastCheck + MINUTE
            && end.lastCheck >= c.lastCheck
            && (AfterCheck(end, last).1.Ran? ==> last.gate > end.lastCheck + MINUTE)
  {
    if moves != [] { ChecksAreSpaced(c, moves[..|moves| - 1], last); }
  }

  function RunFrom(c: Checker, moves: seq<Move>): Checker {
    if moves == [] then c else After(RunFrom(c, moves[..|moves| - 1]), moves[|moves| - 1])
  }
}
