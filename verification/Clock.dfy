/** Simulated time: a fixed step, counted. */
module Clock {
  import opened SignalBus

  datatype SimTime = SimTime(totalSeconds: real, tick: int) {
    function Advance(deltaSeconds: real): SimTime {
      SimTime(totalSeconds + deltaSeconds, tick + 1)
    }
  }

  const ZERO := SimTime(0.0, 0)

  /** The time after `n` steps. */
  function AfterTicks(step: real, n: nat): (t: SimTime)
    ensures t.tick == n
  {
    if n == 0 then ZERO else AfterTicks(step, n - 1).Advance(step)
  }

  /** It is the number of steps times their length. */
  lemma {:induction false} TimeIsTickTimesStep(step: real, n: nat)
    ensures AfterTicks(step, n) == SimTime(n as real * step, n)
  {
    if n > 0 {
      TimeIsTickTimesStep(step, n - 1);
      OneMore(step, n);
    }
  }

  lemma OneMore(step: real, n: nat)
    requires n > 0
    ensures n as real * step == (n - 1) as real * step + step
  {
    assert n as real == (n - 1) as real + 1.0;
  }

  class FixedStepClock {
    const stepSeconds: real
    var time: SimTime

    ghost predicate Valid() reads this {
      stepSeconds > 0.0 && time.tick >= 0 && time == AfterTicks(stepSeconds, time.tick)
    }

    constructor (stepSeconds: real)
      requires stepSeconds > 0.0
      ensures Valid() && this.stepSeconds == stepSeconds && time == ZERO
    {
      this.stepSeconds := stepSeconds;
      time := ZERO;
    }

    method Advance() returns (t: SimTime)
      requires Valid()
      modifies this
      ensures Valid() && t == time == AfterTicks(stepSeconds, old(time.tick) + 1)
    {
      time := time.Advance(stepSeconds);
      t := time;
    }
  }

  /** A step that is not positive is an `ArgumentOutOfRangeException` (`None`). */
  method NewClock(stepSeconds: real) returns (clock: Option<FixedStepClock>)
    ensures clock.Some? <==> stepSeconds > 0.0
    ensures clock.Some? ==> fresh(clock.value) && clock.value.Valid()
    ensures clock.Some? ==> clock.value.stepSeconds == stepSeconds && clock.value.time == ZERO
  {
    if stepSeconds <= 0.0 {
      return None;
    }
    var c := new FixedStepClock(stepSeconds);
    clock := Some(c);
  }
}
