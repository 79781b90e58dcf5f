/** The blowline pressure and the airlock speed over whole runs: exact decay and settling. Only the ticks'
    enables matter, and on the floor the pressure command; all else may be edited at will. */
module TankSettling {
  import opened Dataflow
  import Clock
  import opened Decay
  import opened Operation
  import opened TankModel
  import opened TankPlant
  import opened TankLaws
  import opened TankRig

  // ---------- Under constant settings ----------

  function Steady(ph: Physics, ps: Parameters, x: Plant, n: nat): Plant {
    if n == 0 then x else PlantTick(LawsOf(ph), ps, Steady(ph, ps, x, n - 1))
  }

  function PressureAt(ph: Physics, ps: Parameters, x: Plant, k: int): real {
    if k < 0 then 0.0 else Steady(ph, ps, x, k).pressurePsi
  }

  function SpeedAt(ph: Physics, ps: Parameters, x: Plant, k: int): real {
    if k < 0 then 0.0 else Steady(ph, ps, x, k).speedHz
  }

  lemma LagToZero(x: real, a: real)
    ensures Lag(x, 0.0, a) == x * (1.0 - a)
  {
  }

  lemma PressureLag(ph: Physics, ps: Parameters, x: Plant)
    ensures var target := if !BlowerOn(ps) then 0.0
        else PressureTarget(AirlockOn(ps), SpeedAfter(LawsOf(ph), ps, x), Read(ps, PRESSURE_COMMAND));
      PlantTick(LawsOf(ph), ps, x).pressurePsi == Lag(x.pressurePsi, target, Alpha(ph, 0.9))
  {
  }

  lemma AirlockOffStep(ph: Physics, ps: Parameters, x: Plant)
    requires 0.0 < Alpha(ph, 0.6) < 1.0 && !AirlockOn(ps) && x.speedHz >= 0.0
    ensures SpeedAfter(LawsOf(ph), ps, x) == x.speedHz * (1.0 - Alpha(ph, 0.6)) >= 0.0
  {
    ShareTaken(x.speedHz, Alpha(ph, 0.6));
    LagToZero(x.speedHz, Alpha(ph, 0.6));
  }

  lemma SpeedNext(ph: Physics, ps: Parameters, x: Plant, n: nat)
    requires 0.0 < Alpha(ph, 0.6) < 1.0 && !AirlockOn(ps) && n > 0 && SpeedAt(ph, ps, x, n - 1) >= 0.0
    ensures SpeedAt(ph, ps, x, n) == SpeedAt(ph, ps, x, n - 1) * (1.0 - Alpha(ph, 0.6))
  {
    AirlockOffStep(ph, ps, Steady(ph, ps, x, n - 1));
  }

  lemma {:induction false} SteadySpeedIsUp(ph: Physics, ps: Parameters, x: Plant, n: nat)
    requires 0.0 < Alpha(ph, 0.6) < 1.0 && !AirlockOn(ps) && x.speedHz >= 0.0
    ensures SpeedAt(ph, ps, x, n) >= 0.0
  {
    if n > 0 {
      SteadySpeedIsUp(ph, ps, x, n - 1);
      AirlockOffStep(ph, ps, Steady(ph, ps, x, n - 1));
    }
  }

  /** How fast the speed falls, tick by tick. */
  ghost predicate FallsBy(v: seq<real>, a: real) { forall k: nat | k + 1 < |v| :: v[k + 1] == v[k] * (1.0 - a) }

  lemma {:induction false} SteadySpeeds(ph: Physics, ps: Parameters, x: Plant, n: nat) returns (v: seq<real>)
    requires 0.0 < Alpha(ph, 0.6) < 1.0 && !AirlockOn(ps) && x.speedHz >= 0.0
    ensures |v| == n + 1 && v[0] == x.speedHz && v[n] == SpeedAt(ph, ps, x, n) && FallsBy(v, Alpha(ph, 0.6))
  {
    if n == 0 {
      v := [x.speedHz];
    } else {
      v := SteadySpeeds(ph, ps, x, n - 1);
      SteadySpeedIsUp(ph, ps, x, n - 1);
      SpeedNext(ph, ps, x, n);
      v := FallOn(v, Alpha(ph, 0.6), SpeedAt(ph, ps, x, n));
    }
  }

  lemma FallOn(v: seq<real>, a: real, next: real) returns (v': seq<real>)
    requires v != [] && FallsBy(v, a) && next == v[|v| - 1] * (1.0 - a)
    ensures v' == v + [next] && FallsBy(v', a)
  {
    v' := v + [next];
  }

  lemma {:induction false} SteadySpeedDecays(ph: Physics, ps: Parameters, x: Plant, n: nat)
    requires 0.0 < Alpha(ph, 0.6) < 1.0 && !AirlockOn(ps) && x.speedHz >= 0.0
    ensures SpeedAt(ph, ps, x, n) == Left(x.speedHz, Alpha(ph, 0.6), n) >= 0.0
  {
    var v := SteadySpeeds(ph, ps, x, n);
    LeftThroughout(v, Alpha(ph, 0.6), n);
    SteadySpeedIsUp(ph, ps, x, n);
  }

  /** Blower on, airlock off. */
  predicate Idling(ps: Parameters) {
    Read(ps, BLOWER_ENABLE) >= 0.5 && Read(ps, AIRLOCK_ENABLE) < 0.5 && Read(ps, PRESSURE_COMMAND) >= 0.0
  }

  /** The floor that the pressure settles on, by pressure command. */
  function FloorOf(command: real): real { 0.05 * command }

  /** How far above the floor a residual airlock speed can hold the target. */
  function ExcessOf(command: real, speed: real): real { 0.95 * command * (speed / 30.0) }

  function Floor(ps: Parameters): real { FloorOf(Read(ps, PRESSURE_COMMAND)) }

  function Excess(ps: Parameters, speed: real): real { ExcessOf(Read(ps, PRESSURE_COMMAND), speed) }

  lemma TargetNearFloor(ps: Parameters, speed: real)
    requires Idling(ps) && 0.0 <= speed
    ensures 0.0 <= PressureTarget(false, speed, Read(ps, PRESSURE_COMMAND)) - Floor(ps) <= Excess(ps, speed)
  {
    var p, norm := Read(ps, PRESSURE_COMMAND), Clamp(speed / 30.0, 0.0, 1.0);
    assert Max(0.0, p) == p && Max(0.0, speed) == speed;
    Scale(0.95 * p, norm, speed / 30.0);
    Scale(0.95 * p, 0.0, norm);
    assert p * (0.05 + 0.95 * norm) == 0.05 * p + 0.95 * p * norm;
  }

  lemma ExcessIsLinear(ps: Parameters, k: real, speed: real)
    ensures Excess(ps, k * speed) == k * Excess(ps, speed)
  {
    var c := 0.95 * Read(ps, PRESSURE_COMMAND);
    assert k * speed / 30.0 == k * (speed / 30.0);
    Regroup(c, k, speed / 30.0);
    Regroup(k, c, speed / 30.0);
  }

  lemma {:induction false} ExcessDecays(ps: Parameters, speed: real, a: real, n: nat)
    ensures Excess(ps, Left(speed, a, n)) == Left(Excess(ps, speed), a, n)
  {
    if n > 0 {
      ExcessDecays(ps, speed, a, n - 1);
      ExcessIsLinear(ps, 1.0 - a, Left(speed, a, n - 1));
    }
  }

  lemma ExcessIsNonNegative(ps: Parameters, speed: real)
    requires Idling(ps) && speed >= 0.0
    ensures Excess(ps, speed) >= 0.0
  {
    Scale(0.95 * Read(ps, PRESSURE_COMMAND), 0.0, speed / 30.0);
  }

  /** How far the pressure is from the floor after `k` ticks. */
  function ErrorAt(ph: Physics, ps: Parameters, x: Plant, k: int): real {
    PressureAt(ph, ps, x, k) - Floor(ps)
  }

  /** How far above the floor the target of tick `k` (from 0) is. */
  function PullAt(ph: Physics, ps: Parameters, x: Plant, k: int): real {
    PressureTarget(false, SpeedAt(ph, ps, x, k + 1), Read(ps, PRESSURE_COMMAND)) - Floor(ps)
  }

  lemma LagShift(x: real, t: real, a: real, floor: real)
    ensures Lag(x, t, a) - floor == (x - floor) + ((t - floor) - (x - floor)) * a
  {
  }

  lemma IdlingRelaxes(ph: Physics, ps: Parameters, x: Plant, e: int -> real, d: int -> real, k: nat)
    requires Idling(ps) && (forall i :: e(i) == ErrorAt(ph, ps, x, i)) && forall i :: d(i) == PullAt(ph, ps, x, i)
    ensures RelaxesAt(e, d, Alpha(ph, 0.9), k)
  {
    var y := Steady(ph, ps, x, k);
    assert Steady(ph, ps, x, k + 1) == PlantTick(LawsOf(ph), ps, y);
    PressureLag(ph, ps, y);
    var target := PressureTarget(false, SpeedAt(ph, ps, x, k + 1), Read(ps, PRESSURE_COMMAND));
    assert PressureAt(ph, ps, x, k + 1) == Lag(y.pressurePsi, target, Alpha(ph, 0.9));
    LagShift(y.pressurePsi, target, Alpha(ph, 0.9), Floor(ps));
  }

  lemma PullIsSmall(ph: Physics, ps: Parameters, x: Plant, k: nat)
    requires ValidPhysics(ph) && Idling(ps) && x.speedHz >= 0.0
    ensures 0.0 <= PullAt(ph, ps, x, k) <= Left(Excess(ps, x.speedHz), Alpha(ph, 0.6), k)
  {
    var a, first := Alpha(ph, 0.6), Excess(ps, x.speedHz);
    AlphaInUnit(ph, 0.6);
    SteadySpeedDecays(ph, ps, x, k + 1);
    TargetNearFloor(ps, SpeedAt(ph, ps, x, k + 1));
    ExcessDecays(ps, x.speedHz, a, k + 1);
    ExcessIsNonNegative(ps, x.speedHz);
    LeftShrinks(first, a, k + 1);
  }

  lemma SteadyFloorHolds(ph: Physics, ps: Parameters, x: Plant, n: nat)
    requires ValidPhysics(ph) && Idling(ps) && x.speedHz >= 0.0 && x.pressurePsi >= Floor(ps)
    ensures Steady(ph, ps, x, n).pressurePsi >= Floor(ps)
  {
    var e, d := (k: int) => ErrorAt(ph, ps, x, k), (k: int) => if k < 0 then 0.0 else PullAt(ph, ps, x, k);
    IdlingSequences(ph, ps, x, e, d);
    StaysAbove(e, d, Alpha(ph, 0.9), n);
  }

  lemma IdlingSequences(ph: Physics, ps: Parameters, x: Plant, e: int -> real, d: int -> real)
    requires ValidPhysics(ph) && Idling(ps) && x.speedHz >= 0.0
    requires forall i :: e(i) == ErrorAt(ph, ps, x, i)
    requires forall i :: d(i) == if i < 0 then 0.0 else PullAt(ph, ps, x, i)
    ensures 0.0 < Alpha(ph, 0.6) < 1.0 && 0.0 < Alpha(ph, 0.9) < 1.0
    ensures Relaxes(e, d, Alpha(ph, 0.9))
    ensures forall k: nat :: 0.0 <= d(k) <= Left(Excess(ps, x.speedHz), Alpha(ph, 0.6), k)
  {
    AlphaInUnit(ph, 0.6);
    AlphaInUnit(ph, 0.9);
    forall k: nat ensures RelaxesAt(e, d, Alpha(ph, 0.9), k) {
      IdlingRelaxes(ph, ps, x, e, (i: int) => PullAt(ph, ps, x, i), k);
    }
    forall k: nat ensures 0.0 <= d(k) <= Left(Excess(ps, x.speedHz), Alpha(ph, 0.6), k) {
      PullIsSmall(ph, ps, x, k);
    }
  }

  lemma SteadySettles(ph: Physics, ps: Parameters, x: Plant, eps: real, n: nat)
    requires ValidPhysics(ph) && Idling(ps) && x.speedHz >= 0.0 && eps > 0.0
    ensures 0.0 < Alpha(ph, 0.6) < 1.0 && 0.0 < Alpha(ph, 0.9) < 1.0 && Excess(ps, x.speedHz) >= 0.0
    ensures n >= SettlingSteps(Alpha(ph, 0.9), Alpha(ph, 0.6), Abs(x.pressurePsi - Floor(ps)), Excess(ps, x.speedHz),
                               eps)
      ==> Abs(Steady(ph, ps, x, n).pressurePsi - Floor(ps)) <= eps
  {
    var e, d := (k: int) => ErrorAt(ph, ps, x, k), (k: int) => if k < 0 then 0.0 else PullAt(ph, ps, x, k);
    IdlingSequences(ph, ps, x, e, d);
    ExcessIsNonNegative(ps, x.speedHz);
    if n >= SettlingSteps(Alpha(ph, 0.9), Alpha(ph, 0.6), Abs(e(0)), Excess(ps, x.speedHz), eps) {
      CascadeSettles(e, d, Alpha(ph, 0.9), Alpha(ph, 0.6), Excess(ps, x.speedHz), eps, n);
    }
  }

  // ---------- Over runs ----------

  /** Edits move neither speed nor pressure. */
  lemma EditKeepsLine(laws: Laws, rigs: seq<Rig>, actions: seq<Action>, k: nat)
    requires IsRun(laws, rigs, actions) && k < |actions| && actions[k].Edit?
    ensures rigs[k + 1].plant.speedHz == rigs[k].plant.speedHz
    ensures rigs[k + 1].plant.pressurePsi == rigs[k].plant.pressurePsi
  {
    assert StepAt(laws, rigs, actions, k);
  }

  lemma TickIsStep(laws: Laws, rigs: seq<Rig>, actions: seq<Action>, k: nat)
    requires IsRun(laws, rigs, actions) && k < |actions| && actions[k].Tick?
    ensures rigs[k + 1].plant == PlantTick(laws, rigs[k].store.values, rigs[k].plant)
  {
    assert StepAt(laws, rigs, actions, k);
  }

  lemma BlowerOffStep(ph: Physics, ps: Parameters, x: Plant)
    requires Read(ps, BLOWER_ENABLE) < 0.5
    ensures PlantTick(LawsOf(ph), ps, x).pressurePsi == x.pressurePsi * (1.0 - Alpha(ph, 0.9))
  {
    PressureLag(ph, ps, x);
    LagToZero(x.pressurePsi, Alpha(ph, 0.9));
  }

  ghost predicate BlowerIsOff(rigs: seq<Rig>, actions: seq<Action>, n: nat) {
    && n <= |actions| < |rigs|
    && forall k: nat | k < n && actions[k].Tick? :: Read(rigs[k].store.values, BLOWER_ENABLE) < 0.5
  }

  /** What is left of a gap after `n` ticks with time constant `tau`. */
  function LeftOf(gap: real, ph: Physics, tau: real, n: nat): real
    requires tau > 0.0
  {
    Pow(ph.exp(-ph.dt / tau), n) * gap
  }

  /** With the blower off at every tick, the pressure is an exact power of the ticks' number, whatever is
      edited in between. */
  lemma PressureDecaysExactly(ph: Physics, rigs: seq<Rig>, actions: seq<Action>, n: nat)
    requires IsRun(LawsOf(ph), rigs, actions) && BlowerIsOff(rigs, actions, n)
    ensures rigs[n].plant.pressurePsi == LeftOf(rigs[0].plant.pressurePsi, ph, 0.9, Ticks(actions, n))
  {
    var v := seq(|rigs|, k requires 0 <= k < |rigs| => rigs[k].plant.pressurePsi);
    forall k: nat | k < n ensures LosesAt(v, actions, Alpha(ph, 0.9), k) {
      PressureLoses(ph, rigs, actions, k);
    }
    DecayedAlong(v, actions, Alpha(ph, 0.9), n);
    DecayedIsLeft(v[0], ph, 0.9, Ticks(actions, n));
  }

  lemma DecayedIsLeft(gap: real, ph: Physics, tau: real, n: nat)
    requires tau > 0.0
    ensures Decayed(gap, Alpha(ph, tau), n) == LeftOf(gap, ph, tau, n)
  {
    assert 1.0 - Alpha(ph, tau) == ph.exp(-ph.dt / tau);
  }

  lemma PressureLoses(ph: Physics, rigs: seq<Rig>, actions: seq<Action>, k: nat)
    requires IsRun(LawsOf(ph), rigs, actions) && k < |actions|
    requires actions[k].Tick? ==> Read(rigs[k].store.values, BLOWER_ENABLE) < 0.5
    ensures rigs[k + 1].plant.pressurePsi
         == if actions[k].Tick? then rigs[k].plant.pressurePsi * (1.0 - Alpha(ph, 0.9)) else rigs[k].plant.pressurePsi
  {
    if actions[k].Tick? {
      TickIsStep(LawsOf(ph), rigs, actions, k);
      BlowerOffStep(ph, rigs[k].store.values, rigs[k].plant);
    } else {
      EditKeepsLine(LawsOf(ph), rigs, actions, k);
    }
  }

  /** Where the airlock's speed is headed under some settings. */
  function SpeedTarget(ps: Parameters): real {
    if Read(ps, AIRLOCK_ENABLE) < 0.5 then 0.0 else Read(ps, SPEED_COMMAND)
  }

  /** At every tick that is `target`. */
  ghost predicate DrivenTo(rigs: seq<Rig>, actions: seq<Action>, n: nat, target: real) {
    n <= |actions| < |rigs| && forall k: nat | k < n && actions[k].Tick? :: SpeedTarget(rigs[k].store.values) == target
  }

  lemma GapShrinks(speed: real, target: real, a: real)
    requires 0.0 < a < 1.0 && speed >= 0.0 && target >= 0.0
    ensures Lag(speed, target, a) >= 0.0
    ensures Lag(speed, target, a) - target == (speed - target) * (1.0 - a)
  {
    Scale(speed, 0.0, 1.0 - a);
    Scale(target, 0.0, a);
    assert Lag(speed, target, a) == speed * (1.0 - a) + target * a;
  }

  lemma SpeedIsLag(ph: Physics, ps: Parameters, x: Plant)
    ensures PlantTick(LawsOf(ph), ps, x).speedHz == Max(0.0, Lag(x.speedHz, SpeedTarget(ps), Alpha(ph, 0.6)))
  {
  }

  lemma SpeedStep(ph: Physics, ps: Parameters, x: Plant)
    requires ValidPhysics(ph) && x.speedHz >= 0.0 && SpeedTarget(ps) >= 0.0
    ensures var y := PlantTick(LawsOf(ph), ps, x);
      y.speedHz >= 0.0 && y.speedHz - SpeedTarget(ps) == (x.speedHz - SpeedTarget(ps)) * (1.0 - Alpha(ph, 0.6))
  {
    AlphaInUnit(ph, 0.6);
    SpeedIsLag(ph, ps, x);
    GapShrinks(x.speedHz, SpeedTarget(ps), Alpha(ph, 0.6));
  }

  lemma SpeedCloses(ph: Physics, rigs: seq<Rig>, actions: seq<Action>, k: nat, target: real)
    requires ValidPhysics(ph) && IsRun(LawsOf(ph), rigs, actions) && k < |actions| && rigs[k].plant.speedHz >= 0.0
    requires target >= 0.0 && (actions[k].Tick? ==> SpeedTarget(rigs[k].store.values) == target)
    ensures var gap, gap' := rigs[k].plant.speedHz - target, rigs[k + 1].plant.speedHz - target;
      gap' == if actions[k].Tick? then gap * (1.0 - Alpha(ph, 0.6)) else gap
    ensures rigs[k + 1].plant.speedHz >= 0.0
  {
    if actions[k].Tick? {
      TickIsStep(LawsOf(ph), rigs, actions, k);
      SpeedStep(ph, rigs[k].store.values, rigs[k].plant);
    } else {
      EditKeepsLine(LawsOf(ph), rigs, actions, k);
    }
  }

  lemma {:induction false} SpeedClosesAlways(ph: Physics, rigs: seq<Rig>, actions: seq<Action>, target: real,
                                             v: seq<real>, n: nat)
    requires ValidPhysics(ph) && IsRun(LawsOf(ph), rigs, actions) && DrivenTo(rigs, actions, n, target)
    requires rigs[0].plant.speedHz >= 0.0 && target >= 0.0
    requires |v| == |rigs| && forall k | 0 <= k < |v| :: v[k] == rigs[k].plant.speedHz - target
    ensures rigs[n].plant.speedHz >= 0.0 && forall k: nat | k < n :: LosesAt(v, actions, Alpha(ph, 0.6), k)
  {
    if n > 0 {
      SpeedClosesAlways(ph, rigs, actions, target, v, n - 1);
      SpeedCloses(ph, rigs, actions, n - 1, target);
    }
  }

  /** While the airlock is driven to one speed, and that is zero with the drive disabled, the gap to it is an
      exact power of the ticks' number, whatever else is edited. */
  lemma SpeedFollowsCommand(ph: Physics, rigs: seq<Rig>, actions: seq<Action>, n: nat, target: real)
    requires ValidPhysics(ph) && IsRun(LawsOf(ph), rigs, actions) && DrivenTo(rigs, actions, n, target)
    requires rigs[0].plant.speedHz >= 0.0 && target >= 0.0
    ensures rigs[n].plant.speedHz >= 0.0
    ensures rigs[n].plant.speedHz - target == LeftOf(rigs[0].plant.speedHz - target, ph, 0.6, Ticks(actions, n))
  {
    var v := seq(|rigs|, k requires 0 <= k < |rigs| => rigs[k].plant.speedHz - target);
    SpeedClosesAlways(ph, rigs, actions, target, v, n);
    DecayedAlong(v, actions, Alpha(ph, 0.6), n);
    DecayedIsLeft(v[0], ph, 0.6, Ticks(actions, n));
  }

  /** So with the airlock off at every tick the speed itself is. */
  lemma SpeedDecaysExactly(ph: Physics, rigs: seq<Rig>, actions: seq<Action>, n: nat)
    requires ValidPhysics(ph) && IsRun(LawsOf(ph), rigs, actions) && AirlockIsOff(rigs, actions, n)
    requires rigs[0].plant.speedHz >= 0.0
    ensures rigs[n].plant.speedHz == LeftOf(rigs[0].plant.speedHz, ph, 0.6, Ticks(actions, n)) >= 0.0
  {
    OffIsDrivenToZero(rigs, actions, n);
    SpeedFollowsCommand(ph, rigs, actions, n, 0.0);
    assert rigs[0].plant.speedHz - 0.0 == rigs[0].plant.speedHz;
  }

  ghost predicate AirlockIsOff(rigs: seq<Rig>, actions: seq<Action>, n: nat) {
    && n <= |actions| < |rigs|
    && forall k: nat | k < n && actions[k].Tick? :: Read(rigs[k].store.values, AIRLOCK_ENABLE) < 0.5
  }

  lemma OffIsDrivenToZero(rigs: seq<Rig>, actions: seq<Action>, n: nat)
    requires AirlockIsOff(rigs, actions, n)
    ensures DrivenTo(rigs, actions, n, 0.0)
  {
  }

  function Sum(x: real, y: real): real { x + y }

  ghost predicate TurnsSumsIntoProducts(exp: real -> real) {
    exp(0.0) == 1.0 && forall x, y {:trigger Sum(x, y)} :: exp(Sum(x, y)) == exp(x) * exp(y)
  }

  /** If `exp` turns sums into products, as the exponential does, `n` steps do what one step as long as all of them
      would: the length of the step plays no part. */
  lemma StepLengthPlaysNoPart(ph: Physics, tau: real, gap: real, n: nat)
    requires tau > 0.0 && TurnsSumsIntoProducts(ph.exp)
    ensures LeftOf(gap, ph, tau, n) == LeftOf(gap, ph.(dt := Elapsed(ph.dt, n)), tau, 1)
    ensures Elapsed(ph.dt, n) == n as real * ph.dt
  {
    PowerOfExp(ph.exp, ph.dt, tau, n);
    var whole := ph.(dt := Elapsed(ph.dt, n));
    assert Pow(ph.exp(-whole.dt / tau), 1) == ph.exp(-whole.dt / tau);
    Clock.TimeIsTickTimesStep(ph.dt, n);
  }

  /** The simulated time after `n` ticks. */
  function Elapsed(dt: real, n: nat): real { Clock.AfterTicks(dt, n).totalSeconds }

  lemma {:induction false} PowerOfExp(exp: real -> real, dt: real, tau: real, n: nat)
    requires tau > 0.0 && TurnsSumsIntoProducts(exp)
    ensures Pow(exp(-dt / tau), n) == exp(-Elapsed(dt, n) / tau)
  {
    if n == 0 {
      assert -Elapsed(dt, 0) / tau == 0.0;
    } else {
      PowerOfExp(exp, dt, tau, n - 1);
      var before, one := -Elapsed(dt, n - 1) / tau, -dt / tau;
      ShareOfSum(Elapsed(dt, n - 1), dt, Elapsed(dt, n), tau);
      assert exp(Sum(before, one)) == exp(before) * exp(one);
    }
  }

  lemma ShareOfSum(x: real, y: real, z: real, tau: real)
    requires tau > 0.0 && z == x + y
    ensures Sum(-x / tau, -y / tau) == -z / tau
  {
  }

  // ---------- On the floor, over runs ----------

  /** Every tick finds the blower on, the airlock off, and one pressure command. */
  ghost predicate IdlesAt(rigs: seq<Rig>, actions: seq<Action>, n: nat, command: real) {
    && n <= |actions| < |rigs| && command >= 0.0
    && forall k: nat | k < n && actions[k].Tick? ::
         Idling(rigs[k].store.values) && Read(rigs[k].store.values, PRESSURE_COMMAND) == command
  }

  /** Settings that an idling blowline cannot tell apart. */
  lemma SameIdling(ph: Physics, ps: Parameters, qs: Parameters, x: Plant, y: Plant)
    requires Idling(ps) && Idling(qs) && Read(ps, PRESSURE_COMMAND) == Read(qs, PRESSURE_COMMAND)
    requires x.speedHz == y.speedHz && x.pressurePsi == y.pressurePsi
    ensures PlantTick(LawsOf(ph), ps, x).speedHz == PlantTick(LawsOf(ph), qs, y).speedHz
    ensures PlantTick(LawsOf(ph), ps, x).pressurePsi == PlantTick(LawsOf(ph), qs, y).pressurePsi
  {
  }

  lemma SteadyNext(ph: Physics, ps: Parameters, x: Plant, n: nat)
    ensures Steady(ph, ps, x, n + 1) == PlantTick(LawsOf(ph), ps, Steady(ph, ps, x, n))
  {
  }

  ghost predicate SameLine(x: Plant, y: Plant) { x.speedHz == y.speedHz && x.pressurePsi == y.pressurePsi }

  lemma IdlingStep(ph: Physics, rigs: seq<Rig>, actions: seq<Action>, k: nat, ps: Parameters, x: Plant, t: nat)
    requires IsRun(LawsOf(ph), rigs, actions) && k < |actions| && Idling(ps)
    requires var qs := rigs[k].store.values;
      actions[k].Tick? ==> Idling(qs) && Read(qs, PRESSURE_COMMAND) == Read(ps, PRESSURE_COMMAND)
    requires SameLine(rigs[k].plant, Steady(ph, ps, x, t))
    ensures SameLine(rigs[k + 1].plant, Steady(ph, ps, x, t + if actions[k].Tick? then 1 else 0))
  {
    if actions[k].Tick? {
      TickIsStep(LawsOf(ph), rigs, actions, k);
      SteadyNext(ph, ps, x, t);
      SameIdling(ph, rigs[k].store.values, ps, rigs[k].plant, Steady(ph, ps, x, t));
    } else {
      EditKeepsLine(LawsOf(ph), rigs, actions, k);
    }
  }

  /** Whatever else is edited, an idling line moves as under constant settings. */
  lemma {:induction false} IdlingIsSteady(ph: Physics, rigs: seq<Rig>, actions: seq<Action>, n: nat, ps: Parameters)
    requires IsRun(LawsOf(ph), rigs, actions) && IdlesAt(rigs, actions, n, Read(ps, PRESSURE_COMMAND)) && Idling(ps)
    ensures SameLine(rigs[n].plant, Steady(ph, ps, rigs[0].plant, Ticks(actions, n)))
  {
    if n > 0 {
      IdlingIsSteady(ph, rigs, actions, n - 1, ps);
      IdlingStep(ph, rigs, actions, n - 1, ps, rigs[0].plant, Ticks(actions, n - 1));
    }
  }

  /** Some settings that idle with a given command. */
  lemma IdleSettings(command: real) returns (ps: Parameters)
    requires command >= 0.0
    ensures Idling(ps) && Read(ps, PRESSURE_COMMAND) == command
  {
    ps := map[BLOWER_ENABLE := 1.0, AIRLOCK_ENABLE := 0.0, PRESSURE_COMMAND := command];
    assert |BLOWER_ENABLE| == 12 && |AIRLOCK_ENABLE| == 13 && |PRESSURE_COMMAND| == 26;
  }

  /** Once at or above the floor, the pressure never drops below it. */
  lemma FloorHolds(ph: Physics, rigs: seq<Rig>, actions: seq<Action>, n: nat, command: real)
    requires ValidPhysics(ph) && IsRun(LawsOf(ph), rigs, actions) && IdlesAt(rigs, actions, n, command)
    requires rigs[0].plant.speedHz >= 0.0 && rigs[0].plant.pressurePsi >= FloorOf(command)
    ensures rigs[n].plant.pressurePsi >= FloorOf(command)
  {
    var ps := IdleSettings(command);
    IdlingIsSteady(ph, rigs, actions, n, ps);
    SteadyFloorHolds(ph, ps, rigs[0].plant, Ticks(actions, n));
  }

  /** Airlock off, blower on, one command at every tick: the two cascaded lags drive the pressure to the
      floor, and after an explicit number of ticks it is within `eps` of it, whatever else is edited. */
  lemma PressureSettlesOnFloor(ph: Physics, rigs: seq<Rig>, actions: seq<Action>, n: nat, command: real, eps: real)
    requires ValidPhysics(ph) && IsRun(LawsOf(ph), rigs, actions) && IdlesAt(rigs, actions, n, command)
    requires rigs[0].plant.speedHz >= 0.0 && eps > 0.0
    ensures 0.0 < Alpha(ph, 0.6) < 1.0 && 0.0 < Alpha(ph, 0.9) < 1.0 && ExcessOf(command, rigs[0].plant.speedHz) >= 0.0
    ensures var x := rigs[0].plant;
      Ticks(actions, n) >= SettlingSteps(Alpha(ph, 0.9), Alpha(ph, 0.6), Abs(x.pressurePsi - FloorOf(command)),
                                         ExcessOf(command, x.speedHz), eps)
      ==> Abs(rigs[n].plant.pressurePsi - FloorOf(command)) <= eps
  {
    var ps := IdleSettings(command);
    IdlingIsSteady(ph, rigs, actions, n, ps);
    SteadySettles(ph, ps, rigs[0].plant, eps, Ticks(actions, n));
  }

  /** Undisturbed, a rig's plant is the plant under steady settings. */
  lemma {:induction false} UndisturbedIsSteady(ph: Physics, rigs: seq<Rig>, actions: seq<Action>, n: nat)
    requires IsRun(LawsOf(ph), rigs, actions) && n <= |actions| && forall k | 0 <= k < |actions| :: actions[k] == Tick
    ensures rigs[n] == Rig(rigs[0].store, Steady(ph, rigs[0].store.values, rigs[0].plant, n))
  {
    if n > 0 {
      UndisturbedIsSteady(ph, rigs, actions, n - 1);
      assert StepAt(LawsOf(ph), rigs, actions, n - 1);
    }
  }
}
