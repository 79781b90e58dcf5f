/** The two hydraulic systems: the four-component training system, added out of order, and the
    two-component demo system. */
module HydraulicModel {
  import opened Names
  import opened SignalBus
  import opened ParameterStore
  import opened ParameterDefinitions
  import opened Ordering
  import opened Wiring
  import opened Dataflow
  import opened BuilderTheorems

  // ---------- Names and declarations ----------

  const SUPPLY_PRESSURE := "SupplyPressurePsi"
  const VALVE_OPENING := "ValveOpening"
  const LOAD_FORCE := "LoadForce"
  const FLOW_GAIN := "FlowGainGpm"

  const UPSTREAM := "UpstreamPressurePsi"
  const DOWNSTREAM := "DownstreamPressurePsi"
  const SENSOR_READING := "DownstreamPressureSensorPsi"
  const VALVE_FLOW := "ValveFlowGpm"
  const POSITION := "ActuatorPosition"
  const VELOCITY := "ActuatorVelocity"

  const SUPPLY := Component(0, "SupplyComponent", [], [Dep(UPSTREAM, "PressurePsi")])
  const VALVE := Component(1, "ValveComponent", [Dep(UPSTREAM, "PressurePsi")],
    [Dep(DOWNSTREAM, "PressurePsi"), Dep(VALVE_FLOW, "FlowGpm")])
  const ACTUATOR := Component(2, "ActuatorComponent", [Dep(DOWNSTREAM, "PressurePsi")],
    [Dep(VELOCITY, "Velocity"), Dep(POSITION, "Position")])
  const SENSOR := Component(3, "PressureSensorComponent", [Dep(DOWNSTREAM, "PressurePsi")],
    [Dep(SENSOR_READING, "PressurePsi")])

  const PRESSURE_DROP := Component(0, "PressureDropComponent", [], [Dep(DOWNSTREAM, "PressurePsi")])
  const DEMO_ACTUATOR := Component(1, "ActuatorComponent", [Dep(DOWNSTREAM, "PressurePsi")],
    [Dep(VELOCITY, "Velocity"), Dep(POSITION, "Position")])

  /** The order of the Add calls, deliberately not topological. */
  const TRAINING_ADDED: seq<Component> := [ACTUATOR, SENSOR, VALVE, SUPPLY]

  /** One topological order of the training system. */
  const TRAINING_LAYERS: seq<Component> := [SUPPLY, VALVE, ACTUATOR, SENSOR]

  const DEMO_COMPONENTS: seq<Component> := [PRESSURE_DROP, DEMO_ACTUATOR]

  const DEMO_DEFINITIONS: seq<Definition> := [
    Bounded(SUPPLY_PRESSURE, 2000.0, 0.0, None), Bounded(VALVE_OPENING, 0.2, 0.0, Some(1.0)),
    Bounded(LOAD_FORCE, 800.0, 0.0, None)]

  const TRAINING_DEFINITIONS: seq<Definition> := [
    Bounded(SUPPLY_PRESSURE, 2000.0, 0.0, None), Bounded(VALVE_OPENING, 0.2, 0.0, Some(1.0)),
    Bounded(LOAD_FORCE, 800.0, 0.0, None),
    Bounded(FLOW_GAIN, 20.0, 0.0, None)]

  // ---------- Laws ----------

  /** `power` stands for `Math.Pow(opening, 1.5)`. */
  datatype Physics = Physics(power: real -> real, dt: real)

  datatype Laws = Laws(
    downstream: (real, real) -> real,        // supply pressure, valve opening
    flow: (real, real, real) -> real,        // gain, opening, supply pressure
    velocity: (real, real, real) -> real,    // velocity, pressure, load
    position: (real, real) -> real)          // position, new velocity

  function LawsOf(ph: Physics): Laws {
    Laws((supply: real, opening: real) => supply * ph.power(opening),
         (gain: real, opening: real, supply: real) => gain * opening * (supply / 1000.0),
         (v: real, pressure: real, load: real) => v + ((pressure - load) * 0.002 - 0.8 * v) * ph.dt,
         (x: real, v: real) => x + v * ph.dt)
  }

  // ---------- Ticks ----------

  datatype Memory = Stateless | Motion(velocity: real, position: real)

  function ActuatorEffect(laws: Laws, m: Memory, ps: Parameters, bus: Bus): Effect<Memory>
    requires m.Motion?
  {
    var v := laws.velocity(m.velocity, Read(bus, DOWNSTREAM), Read(ps, LOAD_FORCE));
    var x := laws.position(m.position, v);
    Effect(Motion(v, x), map[VELOCITY := v, POSITION := x])
  }

  function ValveOutputs(laws: Laws, ps: Parameters, bus: Bus): Bus {
    map[DOWNSTREAM := laws.downstream(Read(bus, UPSTREAM), Read(ps, VALVE_OPENING)),
        VALVE_FLOW := laws.flow(Read(ps, FLOW_GAIN), Read(ps, VALVE_OPENING), Read(bus, UPSTREAM))]
  }

  function TrainingStep(laws: Laws, c: Component, m: Memory, ps: Parameters, bus: Bus): Effect<Memory> {
    match c.id
    case 0 => Effect(m, map[UPSTREAM := Read(ps, SUPPLY_PRESSURE)])
    case 1 => Effect(m, ValveOutputs(laws, ps, bus))
    case 2 => if m.Motion? then ActuatorEffect(laws, m, ps, bus) else Effect(m, map[])
    case 3 => Effect(m, map[SENSOR_READING := Read(bus, DOWNSTREAM)])
    case _ => Effect(m, map[])
  }

  function DemoStep(laws: Laws, c: Component, m: Memory, ps: Parameters, bus: Bus): Effect<Memory> {
    match c.id
    case 0 => Effect(m, map[DOWNSTREAM := laws.downstream(Read(ps, SUPPLY_PRESSURE), Read(ps, VALVE_OPENING))])
    case 1 => if m.Motion? then ActuatorEffect(laws, m, ps, bus) else Effect(m, map[])
    case _ => Effect(m, map[])
  }

  function TrainingProgram(laws: Laws): Program<Component, Memory, Parameters> {
    Program((c: Component) => NamesOf(c.inputs), (c: Component) => NamesOf(c.outputs),
            (c: Component, m: Memory, ps: Parameters, bus: Bus) => TrainingStep(laws, c, m, ps, bus))
  }

  function DemoProgram(laws: Laws): Program<Component, Memory, Parameters> {
    Program((c: Component) => NamesOf(c.inputs), (c: Component) => NamesOf(c.outputs),
            (c: Component, m: Memory, ps: Parameters, bus: Bus) => DemoStep(laws, c, m, ps, bus))
  }

  // ---------- Wiring ----------

  function TrainingWriter(n: string): nat {
    if n == UPSTREAM then 0 else if n == DOWNSTREAM || n == VALVE_FLOW then 1
    else if n == VELOCITY || n == POSITION then 2 else 3
  }

  function DemoWriter(n: string): nat { if n == DOWNSTREAM then 0 else 1 }

  function UnitOf(n: string): string {
    if n == VALVE_FLOW then "FlowGpm" else if n == VELOCITY then "Velocity" else if n == POSITION then "Position"
    else "PressurePsi"
  }

  lemma SignalsArePresent()
    ensures !IsBlank(UPSTREAM) && !IsBlank(DOWNSTREAM) && !IsBlank(SENSOR_READING)
    ensures !IsBlank(VALVE_FLOW) && !IsBlank(POSITION) && !IsBlank(VELOCITY)
  {
    assert !IsWhite(UPSTREAM[0]) && !IsWhite(DOWNSTREAM[0]) && !IsWhite(SENSOR_READING[0]);
    assert !IsWhite(VALVE_FLOW[0]) && !IsWhite(POSITION[0]) && !IsWhite(VELOCITY[0]);
  }

  lemma SupplyLayer() ensures Layer(SUPPLY, 0, TrainingWriter, UnitOf) { SignalsArePresent(); }

  lemma ValveLayer() ensures Layer(VALVE, 1, TrainingWriter, UnitOf) { SignalsArePresent(); }

  lemma ActuatorLayer() ensures Layer(ACTUATOR, 2, TrainingWriter, UnitOf) { SignalsArePresent(); }

  lemma SensorLayer() ensures Layer(SENSOR, 3, TrainingWriter, UnitOf) { SignalsArePresent(); }

  lemma DropLayer() ensures Layer(PRESSURE_DROP, 0, DemoWriter, UnitOf) { SignalsArePresent(); }

  lemma DemoActuatorLayer() ensures Layer(DEMO_ACTUATOR, 1, DemoWriter, UnitOf) { SignalsArePresent(); }

  lemma DemoIsAccepted()
    ensures Accepts(DEMO_COMPONENTS) && Topological(Dependencies(DEMO_COMPONENTS), DEMO_COMPONENTS)
  {
    DropLayer();
    DemoActuatorLayer();
    LayeredIsAccepted(DEMO_COMPONENTS, DemoWriter, UnitOf);
  }

  lemma LayersAccepted()
    ensures Accepts(TRAINING_LAYERS) && Topological(Dependencies(TRAINING_LAYERS), TRAINING_LAYERS)
  {
    SupplyLayer();
    ValveLayer();
    ActuatorLayer();
    SensorLayer();
    LayeredIsAccepted(TRAINING_LAYERS, TrainingWriter, UnitOf);
  }

  lemma AddedIsPermutation()
    ensures multiset(TRAINING_ADDED) == multiset(TRAINING_LAYERS)
    ensures SetOf(TRAINING_ADDED) == SetOf(TRAINING_LAYERS)
  {
    PermutationKeepsMembers(TRAINING_ADDED, TRAINING_LAYERS);
  }

  /** Added out of order, the training components are accepted all the same; the layered order is one of
      their topological orders. */
  lemma TrainingIsAccepted()
    ensures Accepts(TRAINING_ADDED) && Topological(Dependencies(TRAINING_ADDED), TRAINING_LAYERS)
  {
    LayersAccepted();
    AddedIsPermutation();
    PermutationKeepsDistinct(TRAINING_LAYERS, TRAINING_ADDED);
    AcceptsIsOrderFree(TRAINING_ADDED);
    AcceptsIsOrderFree(TRAINING_LAYERS);
    CyclesIgnoreAddOrder(TRAINING_ADDED, TRAINING_LAYERS);
    forall c | c in TRAINING_ADDED ensures c in TRAINING_LAYERS { assert c in SetOf(TRAINING_ADDED); }
    forall c | c in TRAINING_LAYERS ensures c in TRAINING_ADDED { assert c in SetOf(TRAINING_LAYERS); }
  }

  // ---------- Definitions ----------

  lemma DefinitionSensible(name: string, default: real, max: Option<real>)
    requires name in {SUPPLY_PRESSURE, VALVE_OPENING, LOAD_FORCE, FLOW_GAIN}
    requires default >= 0.0 && (max.Some? ==> max.value >= default)
    ensures var d := Bounded(name, default, 0.0, max);
      IsNamedPlainly(d) && ValidDefinition(d) && InRange(d, d.defaultValue)
  {
    assert IsTrimmed(name);
    TrimFixed(name);
  }

  ghost predicate Sensible(d: Definition) {
    IsNamedPlainly(d) && ValidDefinition(d) && InRange(d, d.defaultValue)
  }

  lemma DemoDefinitionSensible(k: nat)
    requires k < |DEMO_DEFINITIONS|
    ensures Sensible(DEMO_DEFINITIONS[k])
  {
    if k == 0 {
      DefinitionSensible(SUPPLY_PRESSURE, 2000.0, None);
    } else if k == 1 {
      DefinitionSensible(VALVE_OPENING, 0.2, Some(1.0));
    } else {
      DefinitionSensible(LOAD_FORCE, 800.0, None);
    }
  }

  lemma TrainingDefinitionSensible(k: nat)
    requires k < |TRAINING_DEFINITIONS|
    ensures Sensible(TRAINING_DEFINITIONS[k])
  {
    if k == 0 {
      DefinitionSensible(SUPPLY_PRESSURE, 2000.0, None);
    } else if k == 1 {
      DefinitionSensible(VALVE_OPENING, 0.2, Some(1.0));
    } else if k == 2 {
      DefinitionSensible(LOAD_FORCE, 800.0, None);
    } else {
      DefinitionSensible(FLOW_GAIN, 20.0, None);
    }
  }
}
