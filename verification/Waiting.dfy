/** The progressive backoff and the bounded wait loop built on it. Times are in microseconds. */
module Waiting {
  import Words
  import opened Options

  const SPIN_STEPS: nat := 64
  const YIELD_STEPS: nat := 16
  const SLEEP_FROM: nat := SPIN_STEPS + YIELD_STEPS
  const LAST_STEP: nat := SLEEP_FROM + 8
  const MAX_SLEEP: nat := 1000

  /** The sleep a given step asks for; spinning and yielding ask for none. */
  function Delay(step: nat): nat {
    if step < SLEEP_FROM then 0
    else
      var exponent := step - SLEEP_FROM;
      var delay := 50 * Words.Pow2(if exponent < 5 then exponent else 4);
      if delay > MAX_SLEEP then MAX_SLEEP else delay
  }

  class Backoff {
    var step: nat

    constructor ()
      ensures step == 0
    {
      step := 0;
    }

    /** One wait; returns how long it asked to sleep. */
    method Wait() returns (delay: nat)
      modifies this
      ensures delay == Delay(old(step))
      ensures step == if old(step) < LAST_STEP then old(step) + 1 else old(step)
    {
      if step < SPIN_STEPS {
        delay := 0;
      } else if step < SPIN_STEPS + YIELD_STEPS {
        delay := 0;
      } else {
        var exponent := step - SPIN_STEPS - YIELD_STEPS;
        delay := 50 * Words.Pow2(if exponent < 5 then exponent else 4);
        if delay > MAX_SLEEP {
          delay := MAX_SLEEP;
        }
      }
      if step < SPIN_STEPS + YIELD_STEPS + 8 {
        step := step + 1;
      }
    }

    predicate Sleeping()
      reads this
    {
      step >= SPIN_STEPS + YIELD_STEPS
    }
  }

  // ------------------------------------------------------------ the delays of a whole wait

  /** The step counter after k waits. */
  function StepAfter(k: nat): nat {
    if k < LAST_STEP then k else LAST_STEP
  }

  /** What the k-th wait asks for, counting from zero. */
  function DelayOf(k: nat): nat {
    Delay(StepAfter(k))
  }

  /** What the first k waits ask for together. */
  function TotalDelay(k: nat): nat {
    if k == 0 then 0 else TotalDelay(k - 1) + DelayOf(k - 1)
  }

  lemma SmallPowers()
    ensures Words.Pow2(0) == 1 && Words.Pow2(1) == 2 && Words.Pow2(2) == 4 && Words.Pow2(3) == 8 && Words.Pow2(4) == 16
  {
  }

  /** The delay of every wait, in closed form: it doubles from 50 to 800 and stays there, below the 1 ms cap. */
  lemma DelayValues(k: nat)
    ensures DelayOf(k) == if k < 80 then 0 else if k == 80 then 50 else if k == 81 then 100 else if k == 82 then 200
                          else if k == 83 then 400 else 800
  {
    SmallPowers();
  }

  /** Delays never decrease and never reach the cap. */
  lemma DelaysGrow(k: nat)
    ensures DelayOf(k) <= DelayOf(k + 1) < MAX_SLEEP
  {
    DelayValues(k);
    DelayValues(k + 1);
  }

  lemma {:induction false} TotalDelayFrom(k: nat)
    ensures k <= 80 ==> TotalDelay(k) == 0
    ensures k >= 80 ==> TotalDelay(k) >= 50 * (k - 80)
    ensures k >= 85 ==> TotalDelay(k) == 1550 + 800 * (k - 85)
  {
    if k != 0 {
      TotalDelayFrom(k - 1);
      DelayValues(k - 1);
      if 80 < k <= 85 {
        FirstSleeps(k);
      }
    }
  }

  lemma FirstSleeps(k: nat)
    requires 80 <= k <= 85
    ensures TotalDelay(k) == if k == 80 then 0 else if k == 81 then 50 else if k == 82 then 150 else if k == 83 then 350
                             else if k == 84 then 750 else 1550
  {
    NoSleepYet(80);
    DelayValues(80);
    DelayValues(81);
    DelayValues(82);
    DelayValues(83);
    DelayValues(84);
    assert TotalDelay(81) == TotalDelay(80) + DelayOf(80);
    assert TotalDelay(82) == TotalDelay(81) + DelayOf(81);
    assert TotalDelay(83) == TotalDelay(82) + DelayOf(82);
    assert TotalDelay(84) == TotalDelay(83) + DelayOf(83);
    assert TotalDelay(85) == TotalDelay(84) + DelayOf(84);
  }

  lemma {:induction false} NoSleepYet(k: nat)
    requires k <= 80
    ensures TotalDelay(k) == 0
  {
    if k != 0 {
      NoSleepYet(k - 1);
      DelayValues(k - 1);
    }
  }

  // ------------------------------------------------------------ the wait loop

  function CeilDiv(a: nat, b: nat): nat
    requires b > 0
  {
    (a + b - 1) / b
  }

  /** No wait with this timeout goes on longer: the coarse bound of 50 us a sleep, and the one the growing delays give. */
  function WaitBound(timeout: nat): nat {
    var coarse := 80 + CeilDiv(timeout, 50);
    var fine := 85 + CeilDiv(if timeout > 1550 then timeout - 1550 else 0, 800);
    if coarse < fine then coarse else fine
  }

  /** Without a timeout only the first attempt is made. */
  function MostWaits(timeout: int): nat {
    if timeout <= 0 then 0 else WaitBound(timeout)
  }

  lemma BoundSuffices(timeout: nat)
    ensures WaitBound(timeout) >= 80 && TotalDelay(WaitBound(timeout)) >= timeout
  {
    TotalDelayFrom(WaitBound(timeout));
  }

  /** The k-th look at the world: the attempt, then the deadline, then the stop request decide whether the wait ends. */
  ghost predicate EndsAt<T>(attempt: nat -> Option<T>, now: nat -> int, stop: nat -> bool, timeout: int, k: nat) {
    attempt(k).Some? || timeout <= 0 || stop(k) || (k >= SLEEP_FROM && now(k) >= now(0) + timeout)
  }

  /** The clock advances by at least what each wait sleeps. */
  ghost predicate ClockAdvances(now: nat -> int) {
    forall k: nat {:trigger DelayOf(k)} :: now(k + 1) >= now(k) + DelayOf(k)
  }

  lemma {:induction false} ClockHasAdvanced(now: nat -> int, k: nat)
    requires ClockAdvances(now)
    ensures now(k) >= now(0) + TotalDelay(k)
  {
    if k != 0 {
      ClockHasAdvanced(now, k - 1);
      assert now((k - 1) + 1) >= now(k - 1) + DelayOf(k - 1);
    }
  }

  lemma DeadlinePasses(now: nat -> int, timeout: int, bound: nat)
    requires ClockAdvances(now) && timeout > 0 && bound == MostWaits(timeout)
    ensures bound >= SLEEP_FROM && now(bound) >= now(0) + timeout
  {
    BoundSuffices(timeout);
    ClockHasAdvanced(now, bound);
  }

  /**
   * Tries until the attempt succeeds, a stop is requested or the timeout expires. The k-th attempt, clock reading
   * and look at the stop flag, each after k waits, are parameters.
   */
  method WaitUntil<T>(attempt: nat -> Option<T>, now: nat -> int, stop: nat -> bool, timeout: int)
    returns (result: Option<T>, waits: nat)
    requires ClockAdvances(now)
    ensures result == attempt(waits)
    ensures EndsAt(attempt, now, stop, timeout, waits)
    ensures forall k :: 0 <= k < waits ==> !EndsAt(attempt, now, stop, timeout, k)
    ensures waits <= MostWaits(timeout)
  {
    waits := 0;
    result := attempt(0);
    if result.Some? {
      return;
    }
    if timeout <= 0 {
      return None, 0;
    }
    var deadline := now(0) + timeout;
    var backoff := new Backoff();
    ghost var bound := MostWaits(timeout);
    DeadlinePasses(now, timeout, bound);
    while true
      invariant backoff.step == StepAfter(waits) && fresh(backoff)
      invariant result == attempt(waits) == None
      invariant waits < bound
      invariant waits >= SLEEP_FROM ==> now(waits) < deadline
      invariant forall k :: 0 <= k < waits ==> !EndsAt(attempt, now, stop, timeout, k)
      decreases bound - waits
    {
      if stop(waits) {
        return None, waits;
      }
      assert !EndsAt(attempt, now, stop, timeout, waits);
      var delay := backoff.Wait();
      waits := waits + 1;
      result := attempt(waits);
      if result.Some? {
        return;
      }
      if backoff.Sleeping() && now(waits) >= deadline {
        assert EndsAt(attempt, now, stop, timeout, waits);
        return None, waits;
      }
    }
  }
}
