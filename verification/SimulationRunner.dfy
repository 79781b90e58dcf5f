/** Steps a system and, in real time, paces it. RunnerRace has the step lock and the threads. */
module SimulationRunner {
  import opened Clock

  /** What a system is told in a tick. */
  datatype TickCall = TickCall(time: SimTime, dtSeconds: real)

  /** Stands for the `ISimSystem` behind the runner. */
  class RecordingSystem {
    var received: seq<TickCall>

    constructor ()
      ensures received == []
    {
      received := [];
    }

    method Tick(time: SimTime, dtSeconds: real)
      modifies this
      ensures received == old(received) + [TickCall(time, dtSeconds)]
    {
      received := received + [TickCall(time, dtSeconds)];
    }
  }

  /** The `n` ticks that follow the first `done`. */
  function TicksAfter(step: real, done: nat, n: nat): (s: seq<TickCall>)
    ensures |s| == n
  {
    if n == 0 then [] else TicksAfter(step, done, n - 1) + [TickCall(AfterTicks(step, done + n), step)]
  }

  lemma {:induction false} TickAt(step: real, done: nat, n: nat, k: nat)
    requires k < n
    ensures TicksAfter(step, done, n)[k].time == SimTime((done + k + 1) as real * step, done + k + 1)
    ensures TicksAfter(step, done, n)[k].dtSeconds == step
  {
    TimeIsTickTimesStep(step, done + k + 1);
    if k < n - 1 { TickAt(step, done, n - 1, k); }
  }

  // ---------- The real-time loop, as its stopwatch sees it ----------

  /** One turn of the loop: it looks at the pause flag `at` some time and either rests, or ticks and is
      `done` some time. */
  datatype Turn = Rest(at: real) | Tick(at: real, done: real)

  function TicksIn(turns: seq<Turn>, n: nat): (k: nat)
    requires n <= |turns|
    ensures k <= n
  {
    if n == 0 then 0 else TicksIn(turns, n - 1) + if turns[n - 1].Tick? then 1 else 0
  }

  /** When tick `k` is due; nothing in the loop ever moves this schedule. */
  function Due(start: real, period: real, k: nat): real {
    if k == 0 then start else Due(start, period, k - 1) + period
  }

  function Scheduled(start: real, period: real, k: nat): real { start + k as real * period }

  lemma {:induction false} DueAsScheduled(start: real, period: real, k: nat)
    ensures Due(start, period, k) == Scheduled(start, period, k)
  {
    if k > 0 {
      DueAsScheduled(start, period, k - 1);
      OneMore(period, k);
    }
  }

  predicate IsLate(start: real, period: real, turns: seq<Turn>, i: nat)
    requires i < |turns|
  {
    turns[i].Tick? && turns[i].done >= Due(start, period, TicksIn(turns, i) + 1)
  }

  function Behind(start: real, period: real, turns: seq<Turn>, i: nat): real
    requires i < |turns| && turns[i].Tick?
  {
    turns[i].done - Due(start, period, TicksIn(turns, i) + 1)
  }

  /** The earliest end of the delay before turn `i`. */
  function NotBefore(start: real, period: real, turns: seq<Turn>, i: nat): real
    requires i <= |turns|
  {
    if i == 0 then start
    else match turns[i - 1]
      case Rest(at) => at + 0.025
      case Tick(_, done) => if IsLate(start, period, turns, i - 1) then done else Due(start, period, TicksIn(turns, i))
  }

  /** Time goes forward and no delay ends early. */
  ghost predicate WellTimed(start: real, period: real, turns: seq<Turn>) {
    && (forall i | 0 <= i < |turns| :: turns[i].at >= NotBefore(start, period, turns, i))
    && (forall i | 0 <= i < |turns| :: turns[i].Tick? ==> turns[i].done >= turns[i].at)
  }

  lemma {:induction false} DelaysKeepSchedule(start: real, period: real, turns: seq<Turn>, i: nat)
    requires WellTimed(start, period, turns) && i <= |turns|
    ensures NotBefore(start, period, turns, i) >= Due(start, period, TicksIn(turns, i))
  {
    if i > 0 {
      DelaysKeepSchedule(start, period, turns, i - 1);
      assert turns[i - 1].at >= NotBefore(start, period, turns, i - 1);
    }
  }

  /** No tick starts before it is due, pauses and stalls included. */
  lemma NoTickIsEarly(start: real, period: real, turns: seq<Turn>, i: nat)
    requires WellTimed(start, period, turns) && i < |turns|
    ensures turns[i].at >= Scheduled(start, period, TicksIn(turns, i))
  {
    DelaysKeepSchedule(start, period, turns, i);
    DueAsScheduled(start, period, TicksIn(turns, i));
  }

  /** In absolute time: a tick is late from the end of its period on, by what it is past that; the delay after it
      ends then, or at once if that is past. A rest takes 25 ms. */
  lemma LatenessIsPastSchedule(start: real, period: real, turns: seq<Turn>, i: nat)
    requires i < |turns|
    ensures turns[i].Rest? ==> NotBefore(start, period, turns, i + 1) - turns[i].at == 0.025
    ensures turns[i].Tick? ==>
      var end := Scheduled(start, period, TicksIn(turns, i) + 1);
      && (IsLate(start, period, turns, i) <==> end <= turns[i].done)
      && Behind(start, period, turns, i) + end == turns[i].done
      && NotBefore(start, period, turns, i + 1) == (if end <= turns[i].done then turns[i].done else end)
  {
    DueAsScheduled(start, period, TicksIn(turns, i) + 1);
  }

  /** No turn begins before the one before it is over. */
  lemma {:induction false} TimeGoesForward(start: real, period: real, turns: seq<Turn>, i: nat, j: nat)
    requires WellTimed(start, period, turns) && i < j < |turns| && turns[i].Tick?
    ensures turns[j].at >= turns[i].done
  {
    assert turns[j].at >= NotBefore(start, period, turns, j);
    if i < j - 1 { TimeGoesForward(start, period, turns, i, j - 1); }
  }

  /** The schedule is never moved back after a stall, so the ticks missed meanwhile are all made up for without
      a delay: if some tick is over only when `m` ticks, itself included, were due to be over, then each of
      these `m` ticks asks for no delay after it. Pauses in between change nothing. */
  lemma StallIsCaughtUp(start: real, period: real, turns: seq<Turn>, i: nat, m: nat, j: nat)
    requires WellTimed(start, period, turns) && period >= 0.0
    requires i <= j < |turns| && turns[i].Tick? && turns[j].Tick?
    requires turns[i].done >= Due(start, period, TicksIn(turns, i) + m)
    requires TicksIn(turns, j) < TicksIn(turns, i) + m
    ensures IsLate(start, period, turns, j)
    ensures NotBefore(start, period, turns, j + 1) == turns[j].done
  {
    if i < j {
      TimeGoesForward(start, period, turns, i, j);
      assert turns[j].done >= turns[j].at;
    }
    DueGrows(start, period, TicksIn(turns, j) + 1, TicksIn(turns, i) + m);
  }

  lemma {:induction false} DueGrows(start: real, period: real, i: nat, n: nat)
    requires i <= n && period >= 0.0
    ensures Due(start, period, i) <= Due(start, period, n)
  {
    if i < n { DueGrows(start, period, i, n - 1); }
  }

  ghost function LateTurns(start: real, period: real, turns: seq<Turn>, n: nat): set<nat>
    requires n <= |turns|
  {
    set i: nat | i < n && IsLate(start, period, turns, i)
  }

  lemma OneMoreTurn(start: real, period: real, turns: seq<Turn>, n: nat)
    requires n < |turns|
    ensures |LateTurns(start, period, turns, n + 1)|
         == |LateTurns(start, period, turns, n)| + if IsLate(start, period, turns, n) then 1 else 0
  {
    var late := LateTurns(start, period, turns, n);
    assert LateTurns(start, period, turns, n + 1) == if IsLate(start, period, turns, n) then late + {n} else late;
  }

  /** `max` is `before` or the greatest lateness of the late turns, whichever is more. */
  ghost predicate IsMaxBehind(start: real, period: real, turns: seq<Turn>, n: nat, before: real, max: real)
    requires n <= |turns|
  {
    && max >= before
    && (forall i: nat | i < n && IsLate(start, period, turns, i) :: max >= Behind(start, period, turns, i))
    && (max > before ==>
          exists i: nat :: i < n && IsLate(start, period, turns, i) && max == Behind(start, period, turns, i))
  }

  /** The delays asked for after the first turns end when the schedule says. */
  ghost predicate AsksFor(start: real, period: real, turns: seq<Turn>, wakes: seq<real>) {
    |wakes| <= |turns| && forall i | 0 <= i < |wakes| :: wakes[i] == NotBefore(start, period, turns, i + 1)
  }

  lemma AsksNext(start: real, period: real, turns: seq<Turn>, wakes: seq<real>)
    requires AsksFor(start, period, turns, wakes) && |wakes| < |turns|
    ensures AsksFor(start, period, turns, wakes + [NotBefore(start, period, turns, |wakes| + 1)])
    ensures NotBefore(start, period, turns, |wakes| + 1) == match turns[|wakes|]
      case Rest(at) => at + 0.025
      case Tick(_, done) =>
        var due := Due(start, period, TicksIn(turns, |wakes|)) + period;
        if due > done then due else done
  {
  }

  /** The counters of a runner. */
  datatype Counters = Counters(lateTicks: nat, maxBehindSeconds: real) {
    function AfterDelay(delay: real): Counters {
      if delay > 0.0 then this
      else Counters(lateTicks + 1, if -delay > maxBehindSeconds then -delay else maxBehindSeconds)
    }
  }

  /** Exactly the late turns among the first `n` have been counted. */
  ghost predicate Counted(start: real, period: real, turns: seq<Turn>, n: nat, before: Counters, after: Counters)
    requires n <= |turns|
  {
    && after.lateTicks == before.lateTicks + |LateTurns(start, period, turns, n)|
    && IsMaxBehind(start, period, turns, n, before.maxBehindSeconds, after.maxBehindSeconds)
  }

  lemma CountedNext(start: real, period: real, turns: seq<Turn>, n: nat, before: Counters, after: Counters)
    requires n < |turns| && Counted(start, period, turns, n, before, after)
    ensures Counted(start, period, turns, n + 1, before,
                    if turns[n].Tick?
                    then after.AfterDelay(Due(start, period, TicksIn(turns, n + 1)) - turns[n].done)
                    else after)
  {
    OneMoreTurn(start, period, turns, n);
  }

  // ---------- The runner ----------

  class SimulationRunner {
    const system: RecordingSystem
    const clock: FixedStepClock
    var paused: bool
    var lateTicks: nat
    var maxBehindSeconds: real

    ghost predicate Valid() reads clock { clock.Valid() }

    constructor (system: RecordingSystem, clock: FixedStepClock)
      requires clock.Valid()
      ensures Valid() && this.system == system && this.clock == clock
      ensures !paused && lateTicks == 0 && maxBehindSeconds == 0.0
    {
      this.system, this.clock := system, clock;
      paused, lateTicks, maxBehindSeconds := false, 0, 0.0;
    }

    method Pause()
      modifies `paused
      ensures paused
    {
      paused := true;
    }

    method Resume()
      modifies `paused
      ensures !paused
    {
      paused := false;
    }

    method StepOnce()
      requires Valid()
      modifies clock, system
      ensures Valid() && clock.time == AfterTicks(clock.stepSeconds, old(clock.time.tick) + 1)
      ensures system.received == old(system.received) + [TickCall(clock.time, clock.stepSeconds)]
    {
      var t := clock.Advance();
      system.Tick(t, clock.stepSeconds);
    }

    /** `n` ticks in a row, paused or not; `false` is an `ArgumentOutOfRangeException`. */
    method Step(steps: int) returns (ok: bool)
      requires Valid()
      modifies clock, system
      ensures Valid() && (ok <==> steps >= 1)
      ensures var n := if ok then steps else 0;
        && clock.time.tick == old(clock.time.tick) + n
        && system.received == old(system.received) + TicksAfter(clock.stepSeconds, old(clock.time.tick), n)
    {
      ok := steps >= 1;
      if ok {
        for i := 0 to steps
          invariant Valid() && clock.time.tick == old(clock.time.tick) + i
          invariant system.received == old(system.received) + TicksAfter(clock.stepSeconds, old(clock.time.tick), i)
        {
          StepOnce();
        }
      }
    }

    function Counts(): Counters reads this { Counters(lateTicks, maxBehindSeconds) }

    /** With no delay left to sleep, the tick was late. */
    method CountLateness(delay: real)
      modifies `lateTicks, `maxBehindSeconds
      ensures Counts() == old(Counts()).AfterDelay(delay)
    {
      if delay <= 0.0 {
        lateTicks := lateTicks + 1;
        if -delay > maxBehindSeconds {
          maxBehindSeconds := -delay;
        }
      }
    }

    /** The real-time loop, through the turns that it takes until it is cancelled: the system receives one tick
        per turn that is no rest, and the late ones are counted. `wakes` is when each turn's delay, if it asks
        for one, is to end. */
    method RunRealTime(start: real, period: real, turns: seq<Turn>) returns (wakes: seq<real>)
      requires Valid()
      modifies `lateTicks, `maxBehindSeconds, clock, system
      ensures Valid() && clock.time.tick == old(clock.time.tick) + TicksIn(turns, |turns|)
      ensures system.received
           == old(system.received) + TicksAfter(clock.stepSeconds, old(clock.time.tick), TicksIn(turns, |turns|))
      ensures Counted(start, period, turns, |turns|, old(Counts()), Counts())
      ensures AsksFor(start, period, turns, wakes) && |wakes| == |turns|
    {
      var nextTickAt := start;
      wakes := [];
      for i := 0 to |turns|
        invariant Valid() && nextTickAt == Due(start, period, TicksIn(turns, i))
        invariant clock.time.tick == old(clock.time.tick) + TicksIn(turns, i)
        invariant system.received == old(system.received) + TicksAfter(clock.stepSeconds, old(clock.time.tick),
                                                                       TicksIn(turns, i))
        invariant Counted(start, period, turns, i, old(Counts()), Counts())
        invariant AsksFor(start, period, turns, wakes) && |wakes| == i
      {
        CountedNext(start, period, turns, i, old(Counts()), Counts());
        AsksNext(start, period, turns, wakes);
        match turns[i]
        case Rest(at) => wakes := wakes + [at + 0.025];
        case Tick(_, done) =>
          StepOnce();
          nextTickAt := nextTickAt + period;
          var delay := nextTickAt - done;
          wakes := wakes + [if delay > 0.0 then done + delay else done];
          CountLateness(delay);
      }
    }
  }
}
