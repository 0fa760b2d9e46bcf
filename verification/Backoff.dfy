/** Exponential backoff (`wait.Backoff` with factor 2), in seconds. */
module Backoff {
  const MINUTE: nat := 60
  const HOUR: nat := 3600
  const MAX_STEPS: nat := 0x7FFF_FFFF

  datatype Backoff = Backoff(duration: nat, steps: nat, cap: nat)

  function Default(cap: nat): Backoff { Backoff(MINUTE, MAX_STEPS, cap) }

  /** The state after one `Step`; the delay it hands out is the old duration plus jitter. */
  function Step(b: Backoff): Backoff {
    if b.steps == 0 then b
    else
      var next := 2 * b.duration;
      if b.cap > 0 && next > b.cap then b.(duration := b.cap, steps := 0)
      else b.(duration := next, steps := b.steps - 1)
  }

  function Steps(b: Backoff, k: nat): Backoff { if k == 0 then b else Step(Steps(b, k - 1)) }

  function Pow2(k: nat): nat { if k == 0 then 1 else 2 * Pow2(k - 1) }

  lemma {:induction false} Pow2Grows(k: nat)
    ensures Pow2(k) > k
  {
    if k > 0 { Pow2Grows(k - 1); }
  }

  /** The k-th base delay is 2^k minutes, capped; the step budget never runs out first. */
  lemma {:induction false} BaseDelay(cap: nat, k: nat)
    requires MINUTE <= cap <= HOUR
    ensures var b := Steps(Default(cap), k);
            && b.cap == cap
            && b.duration == (if Pow2(k) * MINUTE <= cap then Pow2(k) * MINUTE else cap)
            && b.steps == (if Pow2(k) * MINUTE <= cap then MAX_STEPS - k else 0)
  {
    if k > 0 {
      BaseDelay(cap, k - 1);
      Pow2Grows(k - 1);
    }
  }
}
