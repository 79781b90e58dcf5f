/** The tank-transfer plant: its signals, its seven components and what each does in a tick. */
module TankModel {
  import opened Wiring
  import opened Dataflow

  // ---------- Names ----------

  const SOURCE_WEIGHT := "SourceTankWeightLb"
  const DEST_WEIGHT := "DestinationTankWeightLb"
  const DEST_CAPACITY := "DestinationTankCapacityLb"
  const BLOWER_ENABLE := "BlowerEnable"
  const AIRLOCK_ENABLE := "AirlockEnable"
  const PRESSURE_COMMAND := "BlowlinePressureCommandPsi"
  const SPEED_COMMAND := "AirlockSpeedCommandHz"
  const PRESSURE := "BlowlinePressurePsi"
  const SPEED := "AirlockSpeedHz"
  const RATE_COMMAND := "TransferRateCommandLbPerSec"
  const RATE := "TransferRateLbPerSec"
  const BLOWER_LOAD := "BlowerMotorPercentFla"
  const BLOWER_RUNNING := "BlowerRunning"
  const AIRLOCK_RUNNING := "AirlockRunning"
  const IS_STARVED := "IsStarved"
  const IS_FULL := "IsFull"

  // ---------- Declarations, in the order in which they are added ----------

  const COMMANDS := Component(0, "CommandSignalsComponent", [],
    [Dep(PRESSURE_COMMAND, "PressurePsi"), Dep(SPEED_COMMAND, "FrequencyHz")])
  const RUN_STATE := Component(1, "RunStateSignalsComponent", [],
    [Dep(BLOWER_RUNNING, "Ratio"), Dep(AIRLOCK_RUNNING, "Ratio")])
  const AIRLOCK := Component(2, "AirlockDriveComponent",
    [Dep(SPEED_COMMAND, "FrequencyHz"), Dep(AIRLOCK_RUNNING, "Ratio")],
    [Dep(SPEED, "FrequencyHz")])
  const SETPOINT := Component(3, "TransferSetpointComponent",
    [Dep(SPEED, "FrequencyHz"), Dep(PRESSURE_COMMAND, "PressurePsi"), Dep(AIRLOCK_RUNNING, "Ratio"),
     Dep(BLOWER_RUNNING, "Ratio")],
    [Dep(RATE_COMMAND, "MassRateLbPerSec")])
  const INVENTORY := Component(4, "TankInventoryComponent",
    [Dep(RATE_COMMAND, "MassRateLbPerSec")],
    [Dep(SOURCE_WEIGHT, "WeightLb"), Dep(DEST_WEIGHT, "WeightLb"), Dep(RATE, "MassRateLbPerSec"),
     Dep(IS_STARVED, "Ratio"), Dep(IS_FULL, "Ratio")])
  const BLOWLINE := Component(5, "BlowlinePressureDynamicsComponent",
    [Dep(PRESSURE_COMMAND, "PressurePsi"), Dep(RATE, "MassRateLbPerSec"), Dep(SPEED, "FrequencyHz"),
     Dep(AIRLOCK_RUNNING, "Ratio"), Dep(BLOWER_RUNNING, "Ratio")],
    [Dep(PRESSURE, "PressurePsi")])
  const MOTOR := Component(6, "BlowerMotorComponent",
    [Dep(PRESSURE, "PressurePsi"), Dep(RATE, "MassRateLbPerSec"), Dep(BLOWER_RUNNING, "Ratio")],
    [Dep(BLOWER_LOAD, "Percent")])

  const TANK_COMPONENTS: seq<Component> := [COMMANDS, RUN_STATE, AIRLOCK, SETPOINT, INVENTORY, BLOWLINE, MOTOR]

  // ---------- Physics ----------

  /** `Math.Exp` and the fixed step. Only the facts in `ExpLike` are ever used of the exponential. */
  datatype Physics = Physics(exp: real -> real, dt: real)

  ghost predicate ExpLike(exp: real -> real) {
    && exp(0.0) == 1.0
    && (forall x :: exp(x) > 0.0)
    && (forall x :: x < 0.0 ==> exp(x) < 1.0)
    && (forall x, y :: x <= y ==> exp(x) <= exp(y))
  }

  ghost predicate ValidPhysics(ph: Physics) { ExpLike(ph.exp) && ph.dt > 0.0 }

  function Max(x: real, y: real): real { if x >= y then x else y }
  function Min(x: real, y: real): real { if x <= y then x else y }
  function Clamp(x: real, low: real, high: real): real { if x < low then low else if x > high then high else x }
  function Flag(b: bool): real { if b then 1.0 else 0.0 }

  /** The gain of a first-order lag with time constant `tau` over one step. */
  function Alpha(ph: Physics, tau: real): real requires tau > 0.0 { 1.0 - ph.exp(-ph.dt / tau) }

  function Lag(x: real, target: real, alpha: real): real { x + (target - x) * alpha }

  // ---------- One component's tick ----------

  datatype TankContents = TankContents(sourceLb: real, destLb: real, capacityLb: real)

  datatype Memory =
    | Stateless
    | Drive(speedHz: real)
    | Tanks(contents: TankContents)
    | Line(pressurePsi: real)

  function CommandOutputs(ps: Parameters): Bus {
    map[PRESSURE_COMMAND := Read(ps, PRESSURE_COMMAND), SPEED_COMMAND := Read(ps, SPEED_COMMAND)]
  }

  function RunStateOutputs(ps: Parameters): Bus {
    map[BLOWER_RUNNING := Flag(Read(ps, BLOWER_ENABLE) >= 0.5),
        AIRLOCK_RUNNING := Flag(Read(ps, AIRLOCK_ENABLE) >= 0.5)]
  }

  function NextSpeed(ph: Physics, speed: real, running: bool, command: real): real {
    Max(0.0, Lag(speed, if running then command else 0.0, Alpha(ph, 0.6)))
  }

  function CommandedRate(ph: Physics, airlockRunning: bool, blowerRunning: bool, speed: real,
                         pressureCommand: real): real {
    if !airlockRunning || !blowerRunning then 0.0
    else 3.0 * Max(0.0, speed) * (1.0 - ph.exp(-Max(0.0, pressureCommand) / 6.0))
  }

  /** What moves in one tick: the request, cut to what the source has and the destination can take. */
  function Moved(dt: real, commandedRate: real, t: TankContents): real {
    Min(Max(0.0, commandedRate) * dt, Min(Max(0.0, t.sourceLb), Max(0.0, t.capacityLb - t.destLb)))
  }

  function NextTanks(dt: real, commandedRate: real, t: TankContents): TankContents {
    var delta := Moved(dt, commandedRate, t);
    TankContents(Max(0.0, t.sourceLb - delta), Max(0.0, t.destLb + delta), t.capacityLb)
  }

  function ActualRate(dt: real, commandedRate: real, t: TankContents): real {
    if dt > 0.0 then Moved(dt, commandedRate, t) / dt else 0.0
  }

  function PressureTarget(airlockRunning: bool, speed: real, pressureCommand: real): real {
    var speedNorm := Clamp(Max(0.0, speed) / 30.0, 0.0, 1.0);
    var minFactor := if airlockRunning then 0.20 else 0.05;
    Max(0.0, pressureCommand) * (minFactor + (1.0 - minFactor) * speedNorm)
  }

  function NextPressure(ph: Physics, pressure: real, blowerRunning: bool, airlockRunning: bool,
                        speed: real, pressureCommand: real): real
  {
    Lag(pressure, if blowerRunning then PressureTarget(airlockRunning, speed, pressureCommand) else 0.0, Alpha(ph, 0.9))
  }

  /** The load before the clamp. */
  function RawLoad(ph: Physics, pressure: real, flow: real): real {
    15.0 + 55.0 * (1.0 - ph.exp(-Max(0.0, pressure) / 8.0)) + 70.0 * (1.0 - ph.exp(-Max(0.0, flow) / 18.0))
  }

  function BlowerLoad(ph: Physics, blowerRunning: bool, pressure: real, flow: real): real {
    if !blowerRunning then 0.0 else Clamp(RawLoad(ph, pressure, flow), 0.0, 140.0)
  }

  // ---------- Components ----------

  /** What the components compute, apart from which signals they exchange. */
  datatype Laws = Laws(
    speed: (real, bool, real) -> real,                  // speed, running, command
    rateCommand: (bool, bool, real, real) -> real,      // airlock and blower running, speed, pressure command
    tanks: (real, TankContents) -> TankContents,        // commanded rate, contents
    rate: (real, TankContents) -> real,
    pressure: (real, bool, bool, real, real) -> real,   // pressure, blower and airlock running, speed, command
    load: (bool, real, real) -> real)                   // running, pressure, flow

  function LawsOf(ph: Physics): Laws {
    Laws((speed: real, running: bool, command: real) => NextSpeed(ph, speed, running, command),
         (airlock: bool, blower: bool, speed: real, command: real) =>
           CommandedRate(ph, airlock, blower, speed, command),
         (rate: real, t: TankContents) => NextTanks(ph.dt, rate, t),
         (rate: real, t: TankContents) => ActualRate(ph.dt, rate, t),
         (psi: real, blower: bool, airlock: bool, speed: real, command: real) =>
           NextPressure(ph, psi, blower, airlock, speed, command),
         (running: bool, psi: real, flow: real) => BlowerLoad(ph, running, psi, flow))
  }

  predicate On(bus: Bus, n: string) { Read(bus, n) >= 0.5 }

  function InventoryOutputs(rate: real, t: TankContents): Bus {
    map[SOURCE_WEIGHT := t.sourceLb, DEST_WEIGHT := t.destLb, RATE := rate,
        IS_STARVED := Flag(t.sourceLb <= 0.0001),
        IS_FULL := Flag(t.capacityLb > 0.0 && t.destLb >= t.capacityLb - 0.0001)]
  }

  /** `ISimComponent.Tick`, dispatched on the object. */
  function TankStep(laws: Laws, c: Component, m: Memory, ps: Parameters, bus: Bus): Effect<Memory> {
    match c.id
    case 0 => Effect(m, CommandOutputs(ps))
    case 1 => Effect(m, RunStateOutputs(ps))
    case 2 => if m.Drive? then AirlockEffect(laws, m, bus) else Effect(m, map[])
    case 3 => Effect(m, SetpointOutputs(laws, bus))
    case 4 => if m.Tanks? then InventoryEffect(laws, m, bus) else Effect(m, map[])
    case 5 => if m.Line? then BlowlineEffect(laws, m, bus) else Effect(m, map[])
    case 6 => Effect(m, MotorOutputs(laws, bus))
    case _ => Effect(m, map[])
  }

  function AirlockEffect(laws: Laws, m: Memory, bus: Bus): Effect<Memory>
    requires m.Drive?
  {
    var speed := laws.speed(m.speedHz, On(bus, AIRLOCK_RUNNING), Read(bus, SPEED_COMMAND));
    Effect(Drive(speed), map[SPEED := speed])
  }

  function SetpointOutputs(laws: Laws, bus: Bus): Bus {
    map[RATE_COMMAND := laws.rateCommand(On(bus, AIRLOCK_RUNNING), On(bus, BLOWER_RUNNING),
                                         Read(bus, SPEED), Read(bus, PRESSURE_COMMAND))]
  }

  function InventoryEffect(laws: Laws, m: Memory, bus: Bus): Effect<Memory>
    requires m.Tanks?
  {
    var t := laws.tanks(Read(bus, RATE_COMMAND), m.contents);
    Effect(Tanks(t), InventoryOutputs(laws.rate(Read(bus, RATE_COMMAND), m.contents), t))
  }

  function BlowlineEffect(laws: Laws, m: Memory, bus: Bus): Effect<Memory>
    requires m.Line?
  {
    var pressure := laws.pressure(m.pressurePsi, On(bus, BLOWER_RUNNING), On(bus, AIRLOCK_RUNNING),
                                  Read(bus, SPEED), Read(bus, PRESSURE_COMMAND));
    Effect(Line(pressure), map[PRESSURE := pressure])
  }

  function MotorOutputs(laws: Laws, bus: Bus): Bus {
    map[BLOWER_LOAD := laws.load(On(bus, BLOWER_RUNNING), Read(bus, PRESSURE), Read(bus, RATE))]
  }

  function TankProgram(laws: Laws): Program<Component, Memory, Parameters> {
    Program((c: Component) => NamesOf(c.inputs), (c: Component) => NamesOf(c.outputs),
            (c: Component, m: Memory, ps: Parameters, bus: Bus) => TankStep(laws, c, m, ps, bus))
  }

  /** Which component writes a signal, and in which unit. */
  function WriterOf(n: string): nat {
    if n == PRESSURE_COMMAND || n == SPEED_COMMAND then 0
    else if n == BLOWER_RUNNING || n == AIRLOCK_RUNNING then 1
    else if n == SPEED then 2
    else if n == RATE_COMMAND then 3
    else if n == SOURCE_WEIGHT || n == DEST_WEIGHT || n == RATE || n == IS_STARVED || n == IS_FULL then 4
    else if n == PRESSURE then 5
    else 6
  }

  function UnitOf(n: string): string {
    if n == PRESSURE_COMMAND || n == PRESSURE then "PressurePsi"
    else if n == SPEED_COMMAND || n == SPEED then "FrequencyHz"
    else if n == RATE_COMMAND || n == RATE then "MassRateLbPerSec"
    else if n == SOURCE_WEIGHT || n == DEST_WEIGHT then "WeightLb"
    else if n == BLOWER_LOAD then "Percent"
    else "Ratio"
  }

  ghost predicate WellDeclared(c: Component) {
    && (forall d <- c.outputs :: WriterOf(d.name) == c.id && d.unit == UnitOf(d.name))
    && (forall d <- c.inputs :: WriterOf(d.name) < c.id && d.unit == UnitOf(d.name))
  }

  lemma CommandsDeclared() ensures WellDeclared(COMMANDS) {}

  lemma RunStateDeclared() ensures WellDeclared(RUN_STATE) {}

  lemma AirlockDeclared() ensures WellDeclared(AIRLOCK) {}

  lemma SetpointDeclared() ensures WellDeclared(SETPOINT) {}

  lemma InventoryDeclared() ensures WellDeclared(INVENTORY) {
    assert WriterOf(RATE_COMMAND) == 3 && WriterOf(RATE) == 4;
    assert WriterOf(SOURCE_WEIGHT) == 4 && WriterOf(DEST_WEIGHT) == 4;
    assert WriterOf(IS_STARVED) == 4 && WriterOf(IS_FULL) == 4;
  }

  lemma BlowlineDeclared() ensures WellDeclared(BLOWLINE) {}

  lemma MotorDeclared() ensures WellDeclared(MOTOR) {}

  lemma DeclarationsOf(k: nat)
    requires k < 7
    ensures TANK_COMPONENTS[k].id == k && WellDeclared(TANK_COMPONENTS[k])
  {
    if k == 0 { CommandsDeclared(); }
    if k == 1 { RunStateDeclared(); }
    if k == 2 { AirlockDeclared(); }
    if k == 3 { SetpointDeclared(); }
    if k == 4 { InventoryDeclared(); }
    if k == 5 { BlowlineDeclared(); }
    if k == 6 { MotorDeclared(); }
  }
}
