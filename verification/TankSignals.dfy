/** What an observer of the bus sees after a tick of the built tank plant: relations between the signals shown,
    the parameters and the state before, in the numbers of the plant and without reference to its formulas. */
module TankSignals {
  import opened Ordering
  import opened Wiring
  import opened Dataflow
  import opened Decay
  import opened TankModel
  import opened TankPlant
  import opened TankLaws

  // ---------- The formulas, from outside ----------

  lemma LagKeepsGap(x: real, t: real, e: real)
    ensures Lag(x, t, 1.0 - e) == t + (x - t) * e
  {
    assert (t - x) * (1.0 - e) == (t - x) - (t - x) * e;
    assert (t - x) * e == -((x - t) * e);
  }

  /** The speed closes in on its command, or on zero when the drive is off: of the gap the exponential is left. */
  lemma SpeedClosesIn(ph: Physics, speed: real, on: bool, command: real)
    ensures var t := if on then command else 0.0;
      LawsOf(ph).speed(speed, on, command) == Max(0.0, t + (speed - t) * ph.exp(-ph.dt / 0.6))
  {
    LagKeepsGap(speed, if on then command else 0.0, ph.exp(-ph.dt / 0.6));
  }

  /** Of the 3 lb/s per Hz the commanded rate falls short by a share that the pressure command wears away. */
  lemma RateSaturates(ph: Physics, speed: real, command: real)
    requires speed >= 0.0 && command >= 0.0
    ensures 3.0 * speed - LawsOf(ph).rateCommand(true, true, speed, command) == 3.0 * speed * ph.exp(-command / 6.0)
  {
    var e := ph.exp(-command / 6.0);
    assert Max(0.0, speed) == speed && Max(0.0, command) == command;
    assert 3.0 * speed * (1.0 - e) == 3.0 * speed - 3.0 * speed * e;
  }

  /** So it is linear in the speed, never more than 3 lb/s per Hz, and nothing without speed or command. */
  lemma RateIsLinearInSpeed(ph: Physics, speed: real, command: real, k: real)
    requires ValidPhysics(ph) && speed >= 0.0 && command >= 0.0 && k >= 0.0
    ensures LawsOf(ph).rateCommand(true, true, k * speed, command)
         == k * LawsOf(ph).rateCommand(true, true, speed, command)
    ensures 0.0 <= LawsOf(ph).rateCommand(true, true, speed, command) <= 3.0 * speed
    ensures LawsOf(ph).rateCommand(true, true, 0.0, command) == LawsOf(ph).rateCommand(true, true, speed, 0.0) == 0.0
  {
    Scale(k, 0.0, speed);
    RateSaturates(ph, speed, command);
    RateSaturates(ph, k * speed, command);
    ShortScales(k, speed, ph.exp(-command / 6.0));
    RateIsBounded(ph, speed, command);
    RateSaturates(ph, 0.0, command);
    RateSaturates(ph, speed, 0.0);
    assert -0.0 / 6.0 == 0.0;
  }

  lemma ShortScales(k: real, speed: real, e: real)
    ensures 3.0 * (k * speed) - 3.0 * (k * speed) * e == k * (3.0 * speed - 3.0 * speed * e)
  {
    Regroup(k, 3.0 * speed, e);
    assert 3.0 * (k * speed) == k * (3.0 * speed);
  }

  lemma RateIsBounded(ph: Physics, speed: real, command: real)
    requires ValidPhysics(ph) && speed >= 0.0 && command >= 0.0
    ensures 0.0 <= LawsOf(ph).rateCommand(true, true, speed, command) <= 3.0 * speed
  {
    var e := ph.exp(-command / 6.0);
    RateSaturates(ph, speed, command);
    assert -command / 6.0 <= 0.0;
    assert e <= ph.exp(0.0);
    Scale(3.0 * speed, 0.0, e);
    Scale(3.0 * speed, e, 1.0);
  }

  lemma RateIsOff(ph: Physics, airlock: bool, blower: bool, speed: real, command: real)
    requires !airlock || !blower
    ensures LawsOf(ph).rateCommand(airlock, blower, speed, command) == 0.0
  {
  }

  /** The pressure closes in on its target, or on zero when the blower is off. */
  lemma PressureClosesIn(ph: Physics, pressure: real, blower: bool, airlock: bool, speed: real, command: real)
    ensures var t := if blower then PressureTarget(airlock, speed, command) else 0.0;
      LawsOf(ph).pressure(pressure, blower, airlock, speed, command) == t + (pressure - t) * ph.exp(-ph.dt / 0.9)
  {
    LagKeepsGap(pressure, if blower then PressureTarget(airlock, speed, command) else 0.0, ph.exp(-ph.dt / 0.9));
  }

  /** By how much the pressure target is short of the command: by nothing from 30 Hz up, and by 0.8 of it at
      rest, 0.95 with the airlock off; in between in proportion. */
  lemma TargetFallsShort(airlock: bool, speed: real, command: real)
    requires speed >= 0.0 && command >= 0.0
    ensures command - PressureTarget(airlock, speed, command)
         == command * ((if airlock then 0.8 else 0.95) * (if speed < 30.0 then 1.0 - speed / 30.0 else 0.0))
  {
    var least := if airlock then 0.2 else 0.05;
    var norm := if speed < 30.0 then speed / 30.0 else 1.0;
    assert Clamp(Max(0.0, speed) / 30.0, 0.0, 1.0) == norm && Max(0.0, command) == command;
    assert least + (1.0 - least) * norm == 1.0 - (1.0 - least) * (1.0 - norm);
    assert command * (1.0 - (1.0 - least) * (1.0 - norm)) == command - command * ((1.0 - least) * (1.0 - norm));
  }

  /** The load falls short of 140 by what pressure and flow have not yet put on. */
  lemma LoadSaturates(ph: Physics, pressure: real, flow: real)
    requires ValidPhysics(ph) && pressure >= 0.0 && flow >= 0.0
    ensures 140.0 - LawsOf(ph).load(true, pressure, flow)
         == 55.0 * ph.exp(-pressure / 8.0) + 70.0 * ph.exp(-flow / 18.0)
  {
    LoadNeedsNoClamp(ph, true, pressure, flow);
    assert Max(0.0, pressure) == pressure && Max(0.0, flow) == flow;
  }

  // ---------- After a tick ----------

  predicate Enabled(ps: Parameters, n: string) { Read(ps, n) >= 0.5 }

  ghost predicate CommandsAndFlags(ps: Parameters, bus: Bus) {
    && Read(bus, PRESSURE_COMMAND) == Read(ps, PRESSURE_COMMAND)
    && Read(bus, SPEED_COMMAND) == Read(ps, SPEED_COMMAND)
    && Read(bus, BLOWER_RUNNING) == (if Enabled(ps, BLOWER_ENABLE) then 1.0 else 0.0)
    && Read(bus, AIRLOCK_RUNNING) == (if Enabled(ps, AIRLOCK_ENABLE) then 1.0 else 0.0)
  }

  ghost predicate SpeedShown(ph: Physics, ps: Parameters, x: Plant, bus: Bus) {
    var target := if Enabled(ps, AIRLOCK_ENABLE) then Read(ps, SPEED_COMMAND) else 0.0;
    Read(bus, SPEED) - target == (x.speedHz - target) * ph.exp(-ph.dt / 0.6)
  }

  ghost predicate RateShown(ph: Physics, ps: Parameters, bus: Bus) {
    if Enabled(ps, AIRLOCK_ENABLE) && Enabled(ps, BLOWER_ENABLE) then
      3.0 * Read(bus, SPEED) - Read(bus, RATE_COMMAND)
      == 3.0 * Read(bus, SPEED) * ph.exp(-Read(ps, PRESSURE_COMMAND) / 6.0)
    else Read(bus, RATE_COMMAND) == 0.0
  }

  /** What the source loses the destination gains, and the rate accounts for it; it is what was commanded,
      unless the source is empty or the destination full then. */
  ghost predicate TransferShown(dt: real, x: Plant, bus: Bus) {
    var moved, asked := Read(bus, DEST_WEIGHT) - x.destLb, Read(bus, RATE_COMMAND) * dt;
    && moved == x.sourceLb - Read(bus, SOURCE_WEIGHT) == Read(bus, RATE) * dt
    && 0.0 <= moved <= asked && Read(bus, SOURCE_WEIGHT) >= 0.0
    && (moved < asked ==> Read(bus, SOURCE_WEIGHT) == 0.0 || Read(bus, DEST_WEIGHT) >= x.capacityLb)
    && (moved > 0.0 ==> Read(bus, DEST_WEIGHT) <= x.capacityLb)
    && Read(bus, IS_STARVED) == (if Read(bus, SOURCE_WEIGHT) <= 0.0001 then 1.0 else 0.0)
    && Read(bus, IS_FULL)
       == (if x.capacityLb > 0.0 && x.capacityLb - Read(bus, DEST_WEIGHT) <= 0.0001 then 1.0 else 0.0)
  }

  /** What the pressure is drawn to. */
  ghost predicate IsTarget(ps: Parameters, bus: Bus, target: real) {
    var command, speed := Read(ps, PRESSURE_COMMAND), Read(bus, SPEED);
    if !Enabled(ps, BLOWER_ENABLE) then target == 0.0
    else command - target == command * ((if Enabled(ps, AIRLOCK_ENABLE) then 0.8 else 0.95)
                                        * (if speed < 30.0 then 1.0 - speed / 30.0 else 0.0))
  }

  ghost predicate PressureShown(ph: Physics, ps: Parameters, x: Plant, bus: Bus) {
    exists target :: IsTarget(ps, bus, target) &&
      Read(bus, PRESSURE) - target == (x.pressurePsi - target) * ph.exp(-ph.dt / 0.9)
  }

  ghost predicate LoadShown(ph: Physics, ps: Parameters, bus: Bus) {
    if Enabled(ps, BLOWER_ENABLE) then
      140.0 - Read(bus, BLOWER_LOAD)
      == 55.0 * ph.exp(-Read(bus, PRESSURE) / 8.0) + 70.0 * ph.exp(-Read(bus, RATE) / 18.0)
    else Read(bus, BLOWER_LOAD) == 0.0
  }

  /** The next tick starts from what this one shows. */
  ghost predicate Remembered(x: Plant, bus: Bus, y: Plant) {
    && y.speedHz == Read(bus, SPEED) && y.pressurePsi == Read(bus, PRESSURE)
    && y.sourceLb == Read(bus, SOURCE_WEIGHT) && y.destLb == Read(bus, DEST_WEIGHT) && y.capacityLb == x.capacityLb
  }

  // ---------- Proof, signal by signal ----------

  ghost predicate Admissible(ps: Parameters, x: Plant) {
    && Read(ps, SPEED_COMMAND) >= 0.0 && Read(ps, PRESSURE_COMMAND) >= 0.0
    && x.speedHz >= 0.0 && x.pressurePsi >= 0.0 && x.sourceLb >= 0.0 && x.destLb >= 0.0
  }

  lemma FlagsSeen(ps: Parameters, bus: Bus)
    requires Displays(bus, CommandOutputs(ps)) && Displays(bus, RunStateOutputs(ps))
    ensures CommandsAndFlags(ps, bus)
  {
    CommandsSeen(ps, bus);
    assert BLOWER_RUNNING in RunStateOutputs(ps) && AIRLOCK_RUNNING in RunStateOutputs(ps);
  }

  lemma MeanIsNonNegative(x: real, t: real, e: real)
    requires x >= 0.0 && t >= 0.0 && 0.0 < e < 1.0
    ensures t + (x - t) * e >= 0.0
  {
    Scale(x, 0.0, e);
    Scale(t, 0.0, 1.0 - e);
    assert t + (x - t) * e == t * (1.0 - e) + x * e;
  }

  lemma ExpBelowOne(ph: Physics, tau: real)
    requires ValidPhysics(ph) && tau > 0.0
    ensures 0.0 < ph.exp(-ph.dt / tau) < 1.0
  {
    assert -ph.dt / tau < 0.0;
  }

  lemma SpeedAfterIsShown(ph: Physics, ps: Parameters, x: Plant, bus: Bus)
    requires ValidPhysics(ph) && Admissible(ps, x) && Read(bus, SPEED) == SpeedAfter(LawsOf(ph), ps, x)
    ensures SpeedShown(ph, ps, x, bus) && Read(bus, SPEED) >= 0.0
  {
    var t := if Enabled(ps, AIRLOCK_ENABLE) then Read(ps, SPEED_COMMAND) else 0.0;
    SpeedClosesIn(ph, x.speedHz, Enabled(ps, AIRLOCK_ENABLE), Read(ps, SPEED_COMMAND));
    ExpBelowOne(ph, 0.6);
    MeanIsNonNegative(x.speedHz, t, ph.exp(-ph.dt / 0.6));
  }

  lemma SeenOnTheBus(laws: Laws, ps: Parameters, x: Plant, bus: Bus)
    requires Sees(laws, ps, x, bus)
    ensures Read(bus, RATE_COMMAND) == RateAsked(laws, ps, bus)
    ensures Read(bus, PRESSURE) == PressureReached(laws, ps, x, bus)
  {
  }

  /** The rate that the setpoint component commands, from what the bus shows. */
  function RateAsked(laws: Laws, ps: Parameters, bus: Bus): real {
    laws.rateCommand(Enabled(ps, AIRLOCK_ENABLE), Enabled(ps, BLOWER_ENABLE), Read(bus, SPEED),
                     Read(ps, PRESSURE_COMMAND))
  }

  function PressureReached(laws: Laws, ps: Parameters, x: Plant, bus: Bus): real {
    laws.pressure(x.pressurePsi, Enabled(ps, BLOWER_ENABLE), Enabled(ps, AIRLOCK_ENABLE), Read(bus, SPEED),
                  Read(ps, PRESSURE_COMMAND))
  }

  lemma RateIsShown(ph: Physics, ps: Parameters, bus: Bus)
    requires Read(bus, SPEED) >= 0.0 && Read(ps, PRESSURE_COMMAND) >= 0.0
    requires Read(bus, RATE_COMMAND) == RateAsked(LawsOf(ph), ps, bus)
    ensures RateShown(ph, ps, bus)
  {
    var airlock, blower := Enabled(ps, AIRLOCK_ENABLE), Enabled(ps, BLOWER_ENABLE);
    if airlock && blower {
      RateSaturates(ph, Read(bus, SPEED), Read(ps, PRESSURE_COMMAND));
    } else {
      RateIsOff(ph, airlock, blower, Read(bus, SPEED), Read(ps, PRESSURE_COMMAND));
    }
  }

  lemma RateAskedIsNonNegative(ph: Physics, ps: Parameters, bus: Bus)
    requires ValidPhysics(ph) && Read(bus, SPEED) >= 0.0 && Read(ps, PRESSURE_COMMAND) >= 0.0
    ensures RateAsked(LawsOf(ph), ps, bus) >= 0.0
  {
    var airlock, blower := Enabled(ps, AIRLOCK_ENABLE), Enabled(ps, BLOWER_ENABLE);
    if airlock && blower {
      RateIsBounded(ph, Read(bus, SPEED), Read(ps, PRESSURE_COMMAND));
    } else {
      RateIsOff(ph, airlock, blower, Read(bus, SPEED), Read(ps, PRESSURE_COMMAND));
    }
  }

  lemma QuotientTimes(x: real, dt: real)
    requires dt > 0.0
    ensures x / dt * dt == x
  {
  }

  lemma TransferIsShown(ph: Physics, ps: Parameters, x: Plant, bus: Bus)
    requires ValidPhysics(ph) && Admissible(ps, x) && Read(bus, RATE_COMMAND) == RateCommand(LawsOf(ph), ps, x) >= 0.0
    requires Displays(bus, InventoryOutputs(TransferRate(LawsOf(ph), ps, x), ContentsAfter(LawsOf(ph), ps, x)))
    ensures TransferShown(ph.dt, x, bus)
  {
    var rate, t := RateCommand(LawsOf(ph), ps, x), x.Contents();
    var o := InventoryOutputs(TransferRate(LawsOf(ph), ps, x), ContentsAfter(LawsOf(ph), ps, x));
    RateSeen(TransferRate(LawsOf(ph), ps, x), ContentsAfter(LawsOf(ph), ps, x), bus);
    assert IS_STARVED in o && IS_FULL in o;
    Scale(rate, 0.0, ph.dt);
    MovedFits(ph.dt, rate, t);
    QuotientTimes(Moved(ph.dt, rate, t), ph.dt);
  }

  lemma TheTarget(ph: Physics, ps: Parameters, x: Plant, bus: Bus) returns (t: real)
    requires Read(bus, SPEED) >= 0.0 && Read(ps, PRESSURE_COMMAND) >= 0.0
    ensures t >= 0.0 && IsTarget(ps, bus, t)
    ensures PressureReached(LawsOf(ph), ps, x, bus) == t + (x.pressurePsi - t) * ph.exp(-ph.dt / 0.9)
  {
    var airlock, blower := Enabled(ps, AIRLOCK_ENABLE), Enabled(ps, BLOWER_ENABLE);
    var speed, command := Read(bus, SPEED), Read(ps, PRESSURE_COMMAND);
    TargetFallsShort(airlock, speed, command);
    TargetIsNonNegative(airlock, speed, command);
    t := if blower then PressureTarget(airlock, speed, command) else 0.0;
    PressureClosesIn(ph, x.pressurePsi, blower, airlock, speed, command);
  }

  lemma PressureIsShown(ph: Physics, ps: Parameters, x: Plant, bus: Bus)
    requires ValidPhysics(ph) && Read(bus, SPEED) >= 0.0 && Read(ps, PRESSURE_COMMAND) >= 0.0 && x.pressurePsi >= 0.0
    requires Read(bus, PRESSURE) == PressureReached(LawsOf(ph), ps, x, bus)
    ensures PressureShown(ph, ps, x, bus) && Read(bus, PRESSURE) >= 0.0
  {
    var t := TheTarget(ph, ps, x, bus);
    ExpBelowOne(ph, 0.9);
    GapIsShown(ph, ps, x, bus, t, ph.exp(-ph.dt / 0.9));
  }

  lemma GapIsShown(ph: Physics, ps: Parameters, x: Plant, bus: Bus, t: real, e: real)
    requires IsTarget(ps, bus, t) && t >= 0.0 && x.pressurePsi >= 0.0 && e == ph.exp(-ph.dt / 0.9) && 0.0 < e < 1.0
    requires Read(bus, PRESSURE) == t + (x.pressurePsi - t) * e
    ensures PressureShown(ph, ps, x, bus) && Read(bus, PRESSURE) >= 0.0
  {
    MeanIsNonNegative(x.pressurePsi, t, e);
  }

  lemma TargetIsNonNegative(airlock: bool, speed: real, command: real)
    requires speed >= 0.0 && command >= 0.0
    ensures PressureTarget(airlock, speed, command) >= 0.0
  {
    var least := if airlock then 0.20 else 0.05;
    var norm := Clamp(Max(0.0, speed) / 30.0, 0.0, 1.0);
    Scale(1.0 - least, 0.0, norm);
    Scale(command, 0.0, least + (1.0 - least) * norm);
  }

  lemma LoadIsShown(ph: Physics, ps: Parameters, x: Plant, bus: Bus)
    requires ValidPhysics(ph) && Read(bus, PRESSURE) == PressureAfter(LawsOf(ph), ps, x) >= 0.0
    requires Read(bus, RATE) == TransferRate(LawsOf(ph), ps, x) >= 0.0
    requires Read(bus, BLOWER_LOAD) == LoadAfter(LawsOf(ph), ps, x)
    ensures LoadShown(ph, ps, bus)
  {
    if Enabled(ps, BLOWER_ENABLE) { LoadSaturates(ph, Read(bus, PRESSURE), Read(bus, RATE)); }
  }

  // ---------- The theorem ----------

  /** All of these at once. */
  ghost predicate TankReadings(ph: Physics, ps: Parameters, x: Plant, bus: Bus) {
    && CommandsAndFlags(ps, bus) && SpeedShown(ph, ps, x, bus) && RateShown(ph, ps, bus)
    && TransferShown(ph.dt, x, bus) && PressureShown(ph, ps, x, bus) && LoadShown(ph, ps, bus)
  }

  lemma LineIsShown(ph: Physics, ps: Parameters, x: Plant, bus: Bus)
    requires ValidPhysics(ph) && Admissible(ps, x) && Sees(LawsOf(ph), ps, x, bus)
    ensures SpeedShown(ph, ps, x, bus) && RateShown(ph, ps, bus) && PressureShown(ph, ps, x, bus)
    ensures Read(bus, RATE_COMMAND) >= 0.0 && Read(bus, PRESSURE) >= 0.0
  {
    SpeedAfterIsShown(ph, ps, x, bus);
    SeenOnTheBus(LawsOf(ph), ps, x, bus);
    RateIsShown(ph, ps, bus);
    RateAskedIsNonNegative(ph, ps, bus);
    PressureIsShown(ph, ps, x, bus);
  }

  lemma LoadFollows(ph: Physics, ps: Parameters, x: Plant, bus: Bus)
    requires ValidPhysics(ph) && Sees(LawsOf(ph), ps, x, bus) && Read(bus, PRESSURE) >= 0.0
    requires TransferShown(ph.dt, x, bus) && Displays(bus, map[BLOWER_LOAD := LoadAfter(LawsOf(ph), ps, x)])
    ensures LoadShown(ph, ps, bus)
  {
    RateIsNonNegative(Read(bus, RATE), ph.dt);
    SingleSeen(BLOWER_LOAD, LoadAfter(LawsOf(ph), ps, x), bus);
    LoadIsShown(ph, ps, x, bus);
  }

  lemma PlantIsShown(laws: Laws, ps: Parameters, x: Plant, bus: Bus)
    requires Sees(laws, ps, x, bus) && ContentsAfter(laws, ps, x).capacityLb == x.capacityLb
    requires Displays(bus, InventoryOutputs(TransferRate(laws, ps, x), ContentsAfter(laws, ps, x)))
    ensures Remembered(x, bus, PlantTick(laws, ps, x))
  {
    RateSeen(TransferRate(laws, ps, x), ContentsAfter(laws, ps, x), bus);
  }

  lemma CapacityStays(ph: Physics, ps: Parameters, x: Plant)
    ensures ContentsAfter(LawsOf(ph), ps, x).capacityLb == x.capacityLb
  {
  }

  lemma ShownIsRead(ph: Physics, ps: Parameters, x: Plant, bus: Bus)
    requires ValidPhysics(ph) && Admissible(ps, x) && ShowsTick(LawsOf(ph), ps, x, bus)
    ensures TankReadings(ph, ps, x, bus) && Remembered(x, bus, PlantTick(LawsOf(ph), ps, x))
  {
    var parts := TickParts(LawsOf(ph), ps, x);
    TickIsSeen(LawsOf(ph), ps, x, bus);
    assert Displays(bus, parts[0]) && Displays(bus, parts[1]) && Displays(bus, parts[4]) && Displays(bus, parts[6]);
    FlagsSeen(ps, bus);
    LineIsShown(ph, ps, x, bus);
    TransferIsShown(ph, ps, x, bus);
    LoadFollows(ph, ps, x, bus);
    CapacityStays(ph, ps, x);
    PlantIsShown(LawsOf(ph), ps, x, bus);
  }

  lemma RateIsNonNegative(rate: real, dt: real)
    requires dt > 0.0 && rate * dt >= 0.0
    ensures rate >= 0.0
  {
    if rate < 0.0 { ProductIsNegative(rate, dt); }
  }

  lemma ProductIsNegative(rate: real, dt: real)
    requires rate < 0.0 && dt > 0.0
    ensures rate * dt < 0.0
  {
  }

  /** After a tick in the order that Build chose, the bus shows readings that satisfy all of these relations, and
      the plant is as the bus shows it. */
  lemma TickOnTheBus(ph: Physics, ps: Parameters, w: World<Component, Memory>, x: Plant, order: seq<Component>)
    requires ValidPhysics(ph) && Admissible(ps, x) && Holds(w, x)
    requires StableOrder(Dependencies(TANK_COMPONENTS), order)
    ensures forall c <- order :: c in w.memory
    ensures var w' := TickAll(TankProgram(LawsOf(ph)), ps, w, order);
      && TankReadings(ph, ps, x, w'.bus)
      && exists y :: Holds(w', y) && Remembered(x, w'.bus, y)
  {
    TickIsPlantTick(LawsOf(ph), ps, w, x, order);
    ShownIsRead(ph, ps, x, WorldAfter(LawsOf(ph), ps, w, x).bus);
  }
}
