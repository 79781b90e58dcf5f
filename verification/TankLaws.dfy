/** What the tank's laws guarantee: ranges, clipping and monotonicity. Everything about whole runs follows
    from these facts; that the actual formulas have them is shown here once. */
module TankLaws {
  import opened TankModel
  import opened Decay

  /** `u` is `t` after moving what is asked for, what there is or what fits, whichever is least; in
      particular neither weight needs a guard against going negative. */
  ghost predicate Clipped(dt: real, rate: real, t: TankContents, u: TankContents) {
    var m := Min(rate * dt, Min(t.sourceLb, Max(0.0, t.capacityLb - t.destLb)));
    m >= 0.0 && rate * dt >= 0.0 && u == TankContents(t.sourceLb - m, t.destLb + m, t.capacityLb)
  }

  ghost predicate Sound(laws: Laws, dt: real) {
    && dt > 0.0
    && (forall s, on, c :: 0.0 <= s <= 30.0 && 0.0 <= c <= 30.0 ==> 0.0 <= laws.speed(s, on, c) <= 30.0)
    && (forall a, b, s, c :: laws.rateCommand(a, b, s, c) >= 0.0 && (!a || !b ==> laws.rateCommand(a, b, s, c) == 0.0))
    && (forall c: real, t: TankContents :: c >= 0.0 && t.sourceLb >= 0.0 && t.destLb >= 0.0 ==>
          Clipped(dt, c, t, laws.tanks(c, t)))
    && (forall t: TankContents :: t.sourceLb >= 0.0 ==> laws.rate(0.0, t) == 0.0)
    && (forall p, b, a, s, c :: 0.0 <= p <= 25.0 && 0.0 <= c <= 25.0 ==> 0.0 <= laws.pressure(p, b, a, s, c) <= 25.0)
    && (forall on, p, f :: if on then 15.0 <= laws.load(on, p, f) < 140.0 else laws.load(on, p, f) == 0.0)
  }

  /** Laws together with the step for which they are sound. */
  datatype Machine = Machine(laws: Laws, dt: real)

  type SoundMachine = m: Machine | Sound(m.laws, m.dt) ghost witness Machine(IDLE, 1.0)

  const IDLE := Laws(
    (s: real, on: bool, c: real) => 0.0, (a: bool, b: bool, s: real, c: real) => 0.0,
    (c: real, t: TankContents) => NextTanks(1.0, c, t), (c: real, t: TankContents) => 0.0,
    (p: real, b: bool, a: bool, s: real, c: real) => 0.0, (on: bool, p: real, f: real) => if on then 15.0 else 0.0)

  /** More speed and more command never give less. */
  ghost predicate Monotone(laws: Laws) {
    && (forall s, t, on, c, d :: s <= t && c <= d ==> laws.speed(s, on, c) <= laws.speed(t, on, d))
    && (forall a, b, s, t, c, d :: s <= t && c <= d ==> laws.rateCommand(a, b, s, c) <= laws.rateCommand(a, b, t, d))
    && (forall p, q, b, a, s, t, c, d :: p <= q && s <= t && c <= d ==>
          laws.pressure(p, b, a, s, c) <= laws.pressure(q, b, a, t, d))
  }

  /** Sound laws that are also monotone. */
  type MonotoneMachine = m: SoundMachine | Monotone(m.laws) ghost witness Machine(IDLE, 1.0)

  lemma AlphaInUnit(ph: Physics, tau: real)
    requires ValidPhysics(ph) && tau > 0.0
    ensures 0.0 < Alpha(ph, tau) < 1.0
  {
    assert -ph.dt / tau < 0.0;
  }

  lemma LagIsBetween(x: real, t: real, high: real, a: real)
    requires 0.0 <= x <= high && 0.0 <= t <= high && 0.0 < a < 1.0
    ensures 0.0 <= Lag(x, t, a) <= high
  {
    MeanIsBetween(x, t, 0.0, high, a);
  }

  lemma SpeedStaysInRange(ph: Physics, speed: real, running: bool, command: real)
    requires ValidPhysics(ph) && 0.0 <= speed <= 30.0 && 0.0 <= command <= 30.0
    ensures 0.0 <= NextSpeed(ph, speed, running, command) <= 30.0
    ensures NextSpeed(ph, speed, running, command) == Lag(speed, if running then command else 0.0, Alpha(ph, 0.6))
  {
    AlphaInUnit(ph, 0.6);
    LagIsBetween(speed, if running then command else 0.0, 30.0, Alpha(ph, 0.6));
  }

  lemma TargetInRange(airlock: bool, speed: real, command: real)
    requires 0.0 <= command <= 25.0
    ensures 0.05 * command <= PressureTarget(airlock, speed, command) <= command
  {
    var norm := Clamp(Max(0.0, speed) / 30.0, 0.0, 1.0);
    var least := if airlock then 0.20 else 0.05;
    Scale(1.0 - least, norm, 1.0);
    Scale(1.0 - least, 0.0, norm);
    Scale(command, 0.05, least + (1.0 - least) * norm);
    Scale(command, least + (1.0 - least) * norm, 1.0);
  }

  lemma PressureStaysInRange(ph: Physics, psi: real, blower: bool, airlock: bool, speed: real, command: real)
    requires ValidPhysics(ph) && 0.0 <= psi <= 25.0 && 0.0 <= command <= 25.0
    ensures 0.0 <= NextPressure(ph, psi, blower, airlock, speed, command) <= 25.0
  {
    AlphaInUnit(ph, 0.9);
    TargetInRange(airlock, speed, command);
    var target := if blower then PressureTarget(airlock, speed, command) else 0.0;
    LagIsBetween(psi, target, 25.0, Alpha(ph, 0.9));
  }

  /** What moves is there to move and fits; so neither `Max(0, ..)` in the weight updates ever acts. */
  lemma MovedFits(dt: real, rate: real, t: TankContents)
    requires dt > 0.0 && t.sourceLb >= 0.0 && t.destLb >= 0.0
    ensures 0.0 <= Moved(dt, rate, t) <= t.sourceLb
    ensures Moved(dt, rate, t) <= Max(0.0, t.capacityLb - t.destLb)
    ensures NextTanks(dt, rate, t) ==
      TankContents(t.sourceLb - Moved(dt, rate, t), t.destLb + Moved(dt, rate, t), t.capacityLb)
  {
    Scale(dt, 0.0, Max(0.0, rate));
  }

  lemma RateIsNonNegative(ph: Physics, airlock: bool, blower: bool, s: real, c: real)
    requires ValidPhysics(ph)
    ensures CommandedRate(ph, airlock, blower, s, c) >= 0.0
  {
    var f := -Max(0.0, c) / 6.0;
    assert f <= 0.0 && ph.exp(f) <= ph.exp(0.0);
    ProductGrows(0.0, 3.0 * Max(0.0, s), 0.0, 1.0 - ph.exp(f));
  }

  lemma TanksAreClipped(dt: real, c: real, t: TankContents)
    requires dt > 0.0 && c >= 0.0 && t.sourceLb >= 0.0 && t.destLb >= 0.0
    ensures Clipped(dt, c, t, NextTanks(dt, c, t))
  {
    MovedFits(dt, c, t);
    Scale(c, 0.0, dt);
  }

  lemma NothingAskedNothingMoved(dt: real, t: TankContents)
    requires dt > 0.0 && t.sourceLb >= 0.0
    ensures ActualRate(dt, 0.0, t) == 0.0
  {
    assert Moved(dt, 0.0, t) == 0.0;
  }

  lemma RawLoadInRange(ph: Physics, pressure: real, flow: real)
    requires ExpLike(ph.exp)
    ensures 15.0 <= RawLoad(ph, pressure, flow) < 140.0
  {
    var p, f := -Max(0.0, pressure) / 8.0, -Max(0.0, flow) / 18.0;
    assert p <= 0.0 && f <= 0.0;
    assert 0.0 < ph.exp(p) <= ph.exp(0.0) && 0.0 < ph.exp(f) <= ph.exp(0.0);
  }

  /** The load is zero or its raw value, which lies in [15, 140): the clamp at 140 never bites. */
  lemma LoadNeedsNoClamp(ph: Physics, on: bool, pressure: real, flow: real)
    requires ExpLike(ph.exp)
    ensures BlowerLoad(ph, on, pressure, flow) == if on then RawLoad(ph, pressure, flow) else 0.0
    ensures 15.0 <= RawLoad(ph, pressure, flow) < 140.0
  {
    RawLoadInRange(ph, pressure, flow);
  }

  lemma SpeedLawSound(ph: Physics)
    requires ValidPhysics(ph)
    ensures forall s, on, c :: 0.0 <= s <= 30.0 && 0.0 <= c <= 30.0 ==> 0.0 <= LawsOf(ph).speed(s, on, c) <= 30.0
  {
    forall s, on, c | 0.0 <= s <= 30.0 && 0.0 <= c <= 30.0 ensures 0.0 <= LawsOf(ph).speed(s, on, c) <= 30.0 {
      SpeedStaysInRange(ph, s, on, c);
    }
  }

  lemma RateLawSound(ph: Physics)
    requires ValidPhysics(ph)
    ensures forall a, b, s, c ::
      LawsOf(ph).rateCommand(a, b, s, c) >= 0.0 && (!a || !b ==> LawsOf(ph).rateCommand(a, b, s, c) == 0.0)
  {
    forall a, b, s, c ensures LawsOf(ph).rateCommand(a, b, s, c) >= 0.0
      && (!a || !b ==> LawsOf(ph).rateCommand(a, b, s, c) == 0.0)
    {
      RateIsNonNegative(ph, a, b, s, c);
    }
  }

  lemma TankLawsSound(ph: Physics)
    requires ValidPhysics(ph)
    ensures forall c: real, t: TankContents :: c >= 0.0 && t.sourceLb >= 0.0 && t.destLb >= 0.0 ==>
      Clipped(ph.dt, c, t, LawsOf(ph).tanks(c, t))
    ensures forall t: TankContents :: t.sourceLb >= 0.0 ==> LawsOf(ph).rate(0.0, t) == 0.0
  {
    forall c: real, t: TankContents | c >= 0.0 && t.sourceLb >= 0.0 && t.destLb >= 0.0
      ensures Clipped(ph.dt, c, t, LawsOf(ph).tanks(c, t))
    {
      TanksAreClipped(ph.dt, c, t);
    }
    forall t: TankContents | t.sourceLb >= 0.0 ensures LawsOf(ph).rate(0.0, t) == 0.0 {
      NothingAskedNothingMoved(ph.dt, t);
    }
  }

  lemma PressureLawSound(ph: Physics)
    requires ValidPhysics(ph)
    ensures forall p, b, a, s, c | 0.0 <= p <= 25.0 && 0.0 <= c <= 25.0 ::
              0.0 <= LawsOf(ph).pressure(p, b, a, s, c) <= 25.0
  {
    forall p, b, a, s, c | 0.0 <= p <= 25.0 && 0.0 <= c <= 25.0
      ensures 0.0 <= LawsOf(ph).pressure(p, b, a, s, c) <= 25.0
    {
      PressureStaysInRange(ph, p, b, a, s, c);
    }
  }

  lemma LoadLawSound(ph: Physics)
    requires ValidPhysics(ph)
    ensures forall on, p, f ::
              if on then 15.0 <= LawsOf(ph).load(on, p, f) < 140.0 else LawsOf(ph).load(on, p, f) == 0.0
  {
    forall on, p, f ensures if on then 15.0 <= LawsOf(ph).load(on, p, f) < 140.0 else LawsOf(ph).load(on, p, f) == 0.0 {
      LoadNeedsNoClamp(ph, on, p, f);
    }
  }

  /** The plant's own formulas are sound, whatever the step. */
  lemma PhysicsIsSound(ph: Physics)
    requires ValidPhysics(ph)
    ensures Sound(LawsOf(ph), ph.dt)
  {
    SpeedLawSound(ph);
    RateLawSound(ph);
    TankLawsSound(ph);
    PressureLawSound(ph);
    LoadLawSound(ph);
  }

  /** The plant's own formulas, with the step they are used with. */
  ghost function MachineOf(ph: Physics): SoundMachine
    requires ValidPhysics(ph)
  {
    PhysicsIsSound(ph);
    Machine(LawsOf(ph), ph.dt)
  }

  lemma SpeedIsMonotone(ph: Physics, s: real, t: real, running: bool, c: real, d: real)
    requires ValidPhysics(ph) && s <= t && c <= d
    ensures NextSpeed(ph, s, running, c) <= NextSpeed(ph, t, running, d)
  {
    AlphaInUnit(ph, 0.6);
    MeanIsMonotone(s, t, if running then c else 0.0, if running then d else 0.0, Alpha(ph, 0.6));
  }

  lemma RateIsMonotone(ph: Physics, airlock: bool, blower: bool, s: real, t: real, c: real, d: real)
    requires ValidPhysics(ph) && s <= t && c <= d
    ensures 0.0 <= CommandedRate(ph, airlock, blower, s, c) <= CommandedRate(ph, airlock, blower, t, d)
  {
    var f, g := -Max(0.0, c) / 6.0, -Max(0.0, d) / 6.0;
    assert g <= f <= 0.0;
    assert ph.exp(g) <= ph.exp(f) <= ph.exp(0.0);
    ProductGrows(3.0 * Max(0.0, s), 3.0 * Max(0.0, t), 1.0 - ph.exp(f), 1.0 - ph.exp(g));
  }

  lemma TargetIsMonotone(airlock: bool, s: real, t: real, c: real, d: real)
    requires s <= t && c <= d
    ensures 0.0 <= PressureTarget(airlock, s, c) <= PressureTarget(airlock, t, d)
  {
    var m, n := Clamp(Max(0.0, s) / 30.0, 0.0, 1.0), Clamp(Max(0.0, t) / 30.0, 0.0, 1.0);
    var least := if airlock then 0.20 else 0.05;
    Scale(1.0 - least, m, n);
    Scale(1.0 - least, 0.0, m);
    ProductGrows(Max(0.0, c), Max(0.0, d), least + (1.0 - least) * m, least + (1.0 - least) * n);
  }

  lemma PressureIsMonotone(ph: Physics, p: real, q: real, blower: bool, airlock: bool, s: real, t: real, c: real,
                           d: real)
    requires ValidPhysics(ph) && p <= q && s <= t && c <= d
    ensures NextPressure(ph, p, blower, airlock, s, c) <= NextPressure(ph, q, blower, airlock, t, d)
  {
    AlphaInUnit(ph, 0.9);
    TargetIsMonotone(airlock, s, t, c, d);
    MeanIsMonotone(p, q, if blower then PressureTarget(airlock, s, c) else 0.0,
                   if blower then PressureTarget(airlock, t, d) else 0.0, Alpha(ph, 0.9));
  }

  lemma SpeedLawMonotone(ph: Physics)
    requires ValidPhysics(ph)
    ensures forall s, t, on, c, d :: s <= t && c <= d ==> LawsOf(ph).speed(s, on, c) <= LawsOf(ph).speed(t, on, d)
  {
    forall s, t, on, c, d | s <= t && c <= d ensures LawsOf(ph).speed(s, on, c) <= LawsOf(ph).speed(t, on, d) {
      SpeedIsMonotone(ph, s, t, on, c, d);
    }
  }

  lemma RateLawMonotone(ph: Physics)
    requires ValidPhysics(ph)
    ensures forall a, b, s, t, c, d :: s <= t && c <= d ==>
      LawsOf(ph).rateCommand(a, b, s, c) <= LawsOf(ph).rateCommand(a, b, t, d)
  {
    forall a, b, s, t, c, d | s <= t && c <= d
      ensures LawsOf(ph).rateCommand(a, b, s, c) <= LawsOf(ph).rateCommand(a, b, t, d)
    {
      RateIsMonotone(ph, a, b, s, t, c, d);
    }
  }

  lemma PressureLawMonotone(ph: Physics)
    requires ValidPhysics(ph)
    ensures forall p, q, b, a, s, t, c, d :: p <= q && s <= t && c <= d ==>
      LawsOf(ph).pressure(p, b, a, s, c) <= LawsOf(ph).pressure(q, b, a, t, d)
  {
    forall p, q, b, a, s, t, c, d | p <= q && s <= t && c <= d
      ensures LawsOf(ph).pressure(p, b, a, s, c) <= LawsOf(ph).pressure(q, b, a, t, d)
    {
      PressureIsMonotone(ph, p, q, b, a, s, t, c, d);
    }
  }

  /** The plant's own formulas are monotone. */
  lemma PhysicsIsMonotone(ph: Physics)
    requires ValidPhysics(ph)
    ensures Monotone(LawsOf(ph))
  {
    SpeedLawMonotone(ph);
    RateLawMonotone(ph);
    PressureLawMonotone(ph);
  }

  ghost function MonotoneMachineOf(ph: Physics): MonotoneMachine
    requires ValidPhysics(ph)
  {
    PhysicsIsMonotone(ph);
    MachineOf(ph)
  }

  // ---------- What is asked of the exponential can be had ----------

  /** A function with all the properties used of the exponential. */
  function RationalExp(x: real): real { if x >= 0.0 then 1.0 + x else 1.0 / (1.0 - x) }

  lemma ReciprocalFalls(p: real, q: real)
    requires 0.0 < p <= q
    ensures 0.0 < 1.0 / q <= 1.0 / p
  {
    var r, s := 1.0 / p, 1.0 / q;
    assert r * p == 1.0 && s * q == 1.0;
    Scale(r, p, q);
    assert (r - s) * q >= 0.0;
  }

  lemma RationalExpIsExpLike()
    ensures ExpLike(RationalExp)
  {
    forall x ensures RationalExp(x) > 0.0 && (x < 0.0 ==> RationalExp(x) < 1.0) {
      if x < 0.0 { assert RationalExp(x) * (1.0 - x) == 1.0; }
    }
    forall x, y | x <= y ensures RationalExp(x) <= RationalExp(y) {
      if y < 0.0 { ReciprocalFalls(1.0 - y, 1.0 - x); }
      if x < 0.0 <= y { ReciprocalFalls(1.0, 1.0 - x); }
    }
  }
}
