/** The two hydraulic systems as objects: an actuator with fields, a shared bus, and the components that
    Build has put in order. */
module HydraulicSystems {
  import opened Wiring
  import opened Dataflow
  import opened SimSystemBuilder
  import opened BuilderTheorems
  import opened SignalBus
  import opened ParameterStore
  import opened ParameterDefinitions
  import opened HydraulicModel
  import opened HydraulicTicks
  import opened HydraulicTheorems

  const SIGNAL_NAMES: set<string> := {UPSTREAM, DOWNSTREAM, SENSOR_READING, VALVE_FLOW, POSITION, VELOCITY}

  // ---------- Components ----------

  class ActuatorComponent {
    const laws: Laws
    var velocity: real
    var position: real

    function State(): Memory reads this { Motion(velocity, position) }

    constructor (laws: Laws)
      ensures this.laws == laws && State() == Motion(0.0, 0.0)
    {
      this.laws, velocity, position := laws, 0.0, 0.0;
    }

    method Tick(ps: Parameters, bus: SignalBus)
      requires DOWNSTREAM in bus.signals
      modifies this, bus
      ensures var e := ActuatorEffect(laws, old(State()), ps, old(bus.signals));
        State() == e.memory && bus.signals == old(bus.signals) + e.outputs
    {
      var pressure := Fetch(bus, DOWNSTREAM);
      velocity := laws.velocity(velocity, pressure, Read(ps, LOAD_FORCE));
      position := laws.position(position, velocity);
      Put(bus, VELOCITY, velocity);
      Put(bus, POSITION, position);
    }
  }

  method TickSupply(ps: Parameters, bus: SignalBus)
    modifies bus
    ensures bus.signals == old(bus.signals) + map[UPSTREAM := Read(ps, SUPPLY_PRESSURE)]
  {
    Put(bus, UPSTREAM, Read(ps, SUPPLY_PRESSURE));
  }

  method TickValve(laws: Laws, ps: Parameters, bus: SignalBus)
    requires UPSTREAM in bus.signals
    modifies bus
    ensures bus.signals == old(bus.signals) + ValveOutputs(laws, ps, old(bus.signals))
  {
    var supply := Fetch(bus, UPSTREAM);
    Put(bus, DOWNSTREAM, laws.downstream(supply, Read(ps, VALVE_OPENING)));
    Put(bus, VALVE_FLOW, laws.flow(Read(ps, FLOW_GAIN), Read(ps, VALVE_OPENING), supply));
  }

  method TickSensor(bus: SignalBus)
    requires DOWNSTREAM in bus.signals
    modifies bus
    ensures bus.signals == old(bus.signals) + map[SENSOR_READING := Read(old(bus.signals), DOWNSTREAM)]
  {
    var pressure := Fetch(bus, DOWNSTREAM);
    Put(bus, SENSOR_READING, pressure);
  }

  method TickPressureDrop(laws: Laws, ps: Parameters, bus: SignalBus)
    modifies bus
    ensures bus.signals
         == old(bus.signals) + map[DOWNSTREAM := laws.downstream(Read(ps, SUPPLY_PRESSURE), Read(ps, VALVE_OPENING))]
  {
    Put(bus, DOWNSTREAM, laws.downstream(Read(ps, SUPPLY_PRESSURE), Read(ps, VALVE_OPENING)));
  }

  // ---------- The constructors' wiring ----------

  method WireTraining() returns (order: seq<Component>)
    ensures order == TRAINING_LAYERS
  {
    var builder := new SimSystemBuilder();
    builder.Add(ACTUATOR);
    builder.Add(SENSOR);
    builder.Add(VALVE);
    builder.Add(SUPPLY);
    assert builder.components == TRAINING_ADDED;
    var r := builder.Build();
    TrainingIsAccepted();
    BuiltIffSortable(TRAINING_ADDED, r);
    TrainingOrder(r.value);
    order := r.value;
  }

  method WireDemo() returns (order: seq<Component>)
    ensures order == DEMO_COMPONENTS
  {
    var builder := new SimSystemBuilder();
    builder.Add(PRESSURE_DROP);
    builder.Add(DEMO_ACTUATOR);
    assert builder.components == DEMO_COMPONENTS;
    var r := builder.Build();
    DemoIsAccepted();
    BuiltIffSortable(DEMO_COMPONENTS, r);
    TopologicalAddOrderIsKept(DEMO_COMPONENTS, r.value);
    order := r.value;
  }

  // ---------- The systems ----------

  function TrainingMemories(m: Memory): map<Component, Memory> {
    Four(SUPPLY, VALVE, ACTUATOR, SENSOR, Stateless, m)
  }

  function DemoMemories(m: Memory): map<Component, Memory> {
    map[PRESSURE_DROP := Stateless, DEMO_ACTUATOR := m]
  }

  function Four<T(==), S>(a: T, b: T, c: T, d: T, u: S, v: S): map<T, S> {
    map[a := u, b := u, c := v, d := u]
  }

  lemma FourUpdates<T, S>(a: T, b: T, c: T, d: T, u: S, v: S, z: S)
    requires a != b && a != c && a != d && b != c && b != d && c != d
    ensures var m := Four(a, b, c, d, u, v);
      && m[a := u] == m && m[b := u] == m && m[d := u] == m && m[c := z] == Four(a, b, c, d, u, z)
      && m[a] == u && m[b] == u && m[c] == v && m[d] == u
  {
  }

  function StatelessOutputs(laws: Laws, ps: Parameters, bus: Bus, k: nat): Bus {
    if k == 0 then map[UPSTREAM := Read(ps, SUPPLY_PRESSURE)]
    else if k == 1 then ValveOutputs(laws, ps, bus)
    else map[SENSOR_READING := Read(bus, DOWNSTREAM)]
  }

  ghost predicate IsStateless(k: nat) { k == 0 || k == 1 || k == 3 }

  lemma StatelessTick(laws: Laws, ps: Parameters, bus: Bus, m: Memory, k: nat)
    requires IsStateless(k)
    ensures TRAINING_LAYERS[k] in TrainingMemories(m)
    ensures TickOne(TrainingProgram(laws), ps, World(bus, TrainingMemories(m)), TRAINING_LAYERS[k])
         == World(bus + StatelessOutputs(laws, ps, bus, k), TrainingMemories(m))
  {
    IdsDiffer();
    FourUpdates(SUPPLY, VALVE, ACTUATOR, SENSOR, Stateless, m, m);
  }

  lemma ActuatorTicks(laws: Laws, ps: Parameters, bus: Bus, m: Memory)
    requires m.Motion?
    ensures ACTUATOR in TrainingMemories(m) && TRAINING_LAYERS[2] == ACTUATOR
    ensures var e := ActuatorEffect(laws, m, ps, bus);
      TickOne(TrainingProgram(laws), ps, World(bus, TrainingMemories(m)), ACTUATOR)
      == World(bus + e.outputs, TrainingMemories(e.memory))
  {
    IdsDiffer();
    FourUpdates(SUPPLY, VALVE, ACTUATOR, SENSOR, Stateless, m, ActuatorEffect(laws, m, ps, bus).memory);
  }

  lemma TrainingReady(bus: Bus, m: Memory)
    requires m.Motion?
    ensures forall c <- TRAINING_LAYERS :: c in TrainingMemories(m)
    ensures Training.Ready(World(bus, TrainingMemories(m))) && Training.Motion(World(bus, TrainingMemories(m))) == m
  {
    IdsDiffer();
    FourUpdates(SUPPLY, VALVE, ACTUATOR, SENSOR, Stateless, m, m);
  }

  method ZeroSignals(bus: SignalBus)
    modifies bus
    ensures SIGNAL_NAMES <= bus.signals.Keys
    ensures forall n <- SIGNAL_NAMES :: bus.signals[n] == 0.0
  {
    Put(bus, UPSTREAM, 0.0);
    Put(bus, DOWNSTREAM, 0.0);
    Put(bus, SENSOR_READING, 0.0);
    Put(bus, VALVE_FLOW, 0.0);
    Put(bus, POSITION, 0.0);
    Put(bus, VELOCITY, 0.0);
  }

  class HydraulicTrainingSystem {
    const laws: Laws
    const parameters: ParameterStore
    const signals: SignalBus
    const actuator: ActuatorComponent
    const order: seq<Component>

    ghost predicate Valid() reads this, signals {
      && actuator.laws == laws && SIGNAL_NAMES <= signals.signals.Keys
      && order == TRAINING_LAYERS
    }

    function Everything(): World<Component, Memory> reads this, signals, actuator {
      World(signals.signals, TrainingMemories(actuator.State()))
    }

    function State(): Rig reads this, parameters, signals, actuator {
      Rig(parameters.State(), Everything())
    }

    constructor (laws: Laws, parameters: ParameterStore)
      requires ValidStore(parameters.State())
      modifies parameters
      ensures Valid() && this.laws == laws && this.parameters == parameters && fresh(signals) && fresh(actuator)
      ensures parameters.State() == DefineAll(old(parameters.State()), TRAINING_DEFINITIONS)
      ensures actuator.State() == Motion(0.0, 0.0) && forall n <- SIGNAL_NAMES :: signals.signals[n] == 0.0
    {
      forall k | 0 <= k < |TRAINING_DEFINITIONS| ensures IsNamedPlainly(TRAINING_DEFINITIONS[k]) {
        TrainingDefinitionSensible(k);
      }
      DefineEach(parameters, TRAINING_DEFINITIONS);
      this.laws, this.parameters := laws, parameters;
      var bus := new SignalBus();
      ZeroSignals(bus);
      signals := bus;
      actuator := new ActuatorComponent(laws);
      var built := WireTraining();
      order := built;
    }

    /** `component.Tick`, for the component at hand. */
    method TickComponent(k: nat)
      requires Valid() && k < |order|
      modifies signals, actuator
      ensures Valid() && order[k] in old(Everything()).memory
      ensures Everything() == TickOne(TrainingProgram(laws), parameters.values, old(Everything()), order[k])
    {
      ghost var bus, m := signals.signals, actuator.State();
      if k == 2 {
        ActuatorTicks(laws, parameters.values, bus, m);
        actuator.Tick(parameters.values, signals);
      } else {
        StatelessTick(laws, parameters.values, bus, m, k);
        if k == 0 {
          TickSupply(parameters.values, signals);
        } else if k == 1 {
          TickValve(laws, parameters.values, signals);
        } else {
          TickSensor(signals);
        }
      }
    }

    /** `SimSystem.Tick`: every component once, in the order that Build made of the Add calls. */
    method RunComponents()
      requires Valid()
      modifies signals, actuator
      ensures Valid() && forall c <- order :: c in old(Everything()).memory
      ensures Everything() == TickAll(TrainingProgram(laws), parameters.values, old(Everything()), order)
    {
      ghost var w, ps := Everything(), parameters.values;
      TrainingReady(signals.signals, actuator.State());
      for k := 0 to |order|
        invariant Valid() && forall c <- order :: c in w.memory
        invariant Everything() == After(TrainingProgram(laws), ps, w, order, k)
      {
        AfterStep(TrainingProgram(laws), ps, w, order, k);
        TickComponent(k);
      }
      assert order[..|order|] == order;
    }

    /** One tick of the built system, and what it comes to for the actuator. */
    method Tick()
      requires Valid()
      modifies signals, actuator
      ensures Valid() && Ticked(Training, laws, parameters.values, old(Everything()), Everything())
      ensures actuator.State() == Moved(laws, parameters.values, old(actuator.State()))
    {
      TrainingReady(signals.signals, actuator.State());
      RunComponents();
      TrainingTicked(laws, parameters.values, old(Everything()), Everything());
      TrainingReady(signals.signals, actuator.State());
      TickMoves(Training, laws, parameters.values, old(Everything()), Everything());
    }
  }

  lemma DropTicks(laws: Laws, ps: Parameters, bus: Bus, m: Memory)
    ensures PRESSURE_DROP in DemoMemories(m) && DEMO_COMPONENTS[0] == PRESSURE_DROP
    ensures TickOne(DemoProgram(laws), ps, World(bus, DemoMemories(m)), PRESSURE_DROP)
         == World(bus + map[DOWNSTREAM := laws.downstream(Read(ps, SUPPLY_PRESSURE), Read(ps, VALVE_OPENING))],
                  DemoMemories(m))
  {
    IdsDiffer();
  }

  lemma DemoActuatorTicks(laws: Laws, ps: Parameters, bus: Bus, m: Memory)
    requires m.Motion?
    ensures DEMO_ACTUATOR in DemoMemories(m) && DEMO_COMPONENTS[1] == DEMO_ACTUATOR
    ensures var e := ActuatorEffect(laws, m, ps, bus);
      TickOne(DemoProgram(laws), ps, World(bus, DemoMemories(m)), DEMO_ACTUATOR)
      == World(bus + e.outputs, DemoMemories(e.memory))
  {
    IdsDiffer();
  }

  lemma DemoReady(bus: Bus, m: Memory)
    requires m.Motion?
    ensures forall c <- DEMO_COMPONENTS :: c in DemoMemories(m)
    ensures Demo.Ready(World(bus, DemoMemories(m))) && Demo.Motion(World(bus, DemoMemories(m))) == m
  {
    IdsDiffer();
  }

  method ZeroDemoSignals(bus: SignalBus)
    modifies bus
    ensures SHARED_SIGNALS <= bus.signals.Keys
    ensures forall n <- SHARED_SIGNALS :: bus.signals[n] == 0.0
  {
    Put(bus, DOWNSTREAM, 0.0);
    Put(bus, POSITION, 0.0);
    Put(bus, VELOCITY, 0.0);
  }

  class DemoHydraulicSystem {
    const laws: Laws
    const parameters: ParameterStore
    const signals: SignalBus
    const actuator: ActuatorComponent
    const order: seq<Component>

    ghost predicate Valid() reads this, signals {
      && actuator.laws == laws && SHARED_SIGNALS <= signals.signals.Keys
      && order == DEMO_COMPONENTS
    }

    function Everything(): World<Component, Memory> reads this, signals, actuator {
      World(signals.signals, DemoMemories(actuator.State()))
    }

    constructor (laws: Laws, parameters: ParameterStore)
      requires ValidStore(parameters.State())
      modifies parameters
      ensures Valid() && this.laws == laws && this.parameters == parameters && fresh(signals) && fresh(actuator)
      ensures parameters.State() == DefineAll(old(parameters.State()), DEMO_DEFINITIONS)
      ensures actuator.State() == Motion(0.0, 0.0) && forall n <- SHARED_SIGNALS :: signals.signals[n] == 0.0
    {
      forall k | 0 <= k < |DEMO_DEFINITIONS| ensures IsNamedPlainly(DEMO_DEFINITIONS[k]) {
        DemoDefinitionSensible(k);
      }
      DefineEach(parameters, DEMO_DEFINITIONS);
      this.laws, this.parameters := laws, parameters;
      var bus := new SignalBus();
      ZeroDemoSignals(bus);
      signals := bus;
      actuator := new ActuatorComponent(laws);
      var built := WireDemo();
      order := built;
    }

    method TickComponent(k: nat)
      requires Valid() && k < |order|
      modifies signals, actuator
      ensures Valid() && order[k] in old(Everything()).memory
      ensures Everything() == TickOne(DemoProgram(laws), parameters.values, old(Everything()), order[k])
    {
      if k == 0 {
        DropTicks(laws, parameters.values, signals.signals, actuator.State());
        TickPressureDrop(laws, parameters.values, signals);
      } else {
        DemoActuatorTicks(laws, parameters.values, signals.signals, actuator.State());
        actuator.Tick(parameters.values, signals);
      }
    }

    method RunComponents()
      requires Valid()
      modifies signals, actuator
      ensures Valid() && forall c <- order :: c in old(Everything()).memory
      ensures Everything() == TickAll(DemoProgram(laws), parameters.values, old(Everything()), order)
    {
      ghost var w, ps := Everything(), parameters.values;
      DemoReady(signals.signals, actuator.State());
      for k := 0 to |order|
        invariant Valid() && forall c <- order :: c in w.memory
        invariant Everything() == After(DemoProgram(laws), ps, w, order, k)
      {
        AfterStep(DemoProgram(laws), ps, w, order, k);
        TickComponent(k);
      }
      assert order[..|order|] == order;
    }

    method Tick()
      requires Valid()
      modifies signals, actuator
      ensures Valid() && Ticked(Demo, laws, parameters.values, old(Everything()), Everything())
      ensures actuator.State() == Moved(laws, parameters.values, old(actuator.State()))
    {
      DemoReady(signals.signals, actuator.State());
      RunComponents();
      DemoTicked(laws, parameters.values, old(Everything()), Everything());
      DemoReady(signals.signals, actuator.State());
      TickMoves(Demo, laws, parameters.values, old(Everything()), Everything());
    }
  }

  // ---------- What the constructors set up ----------

  lemma DefinitionsDiffer()
    ensures forall i, j | 0 <= i < j < 4 :: TRAINING_DEFINITIONS[i].name != TRAINING_DEFINITIONS[j].name
  {
    var lengths := [17, 12, 9, 11];
    forall k | 0 <= k < 4 ensures |TRAINING_DEFINITIONS[k].name| == lengths[k] {
    }
  }

  /** A new training system and a new demo system are alike exactly if each parameter that they share comes to
      the same value over their stores, be it the one that is there or the default. */
  lemma NewSystemsAreAlike(s: Store, t: Store, a: Bus, b: Bus)
    requires ValidStore(s) && ValidStore(t)
    requires forall n <- SHARED_SIGNALS :: n in a && a[n] == 0.0 && n in b && b[n] == 0.0
    ensures Alike(Rig(DefineAll(s, TRAINING_DEFINITIONS), World(a, TrainingMemories(Motion(0.0, 0.0)))),
                  Rig(DefineAll(t, DEMO_DEFINITIONS), World(b, DemoMemories(Motion(0.0, 0.0)))))
       <==> forall d <- DEMO_DEFINITIONS :: HeldUnder(s, d) == HeldUnder(t, d)
  {
    TrainingReady(a, Motion(0.0, 0.0));
    DemoReady(b, Motion(0.0, 0.0));
    NewStoresAgreeIff(s, t);
  }

  lemma SameHeld(s: Store, t: Store, d: Definition, v: real, w: real)
    requires HoldsAs(s, d, v) && HoldsAs(t, d, w)
    ensures SameParameter(s, t, d.name) <==> v == w
  {
  }

  lemma NewStoresAgreeIff(s: Store, t: Store)
    requires ValidStore(s) && ValidStore(t)
    ensures var s', t' := DefineAll(s, TRAINING_DEFINITIONS), DefineAll(t, DEMO_DEFINITIONS);
      (forall n <- SHARED_PARAMETERS :: SameParameter(s', t', n))
      <==> forall d <- DEMO_DEFINITIONS :: HeldUnder(s, d) == HeldUnder(t, d)
  {
    var ds, es := TRAINING_DEFINITIONS, DEMO_DEFINITIONS;
    NewTrainingStore(s);
    NewDemoStore(t);
    SharedDefinitions();
    forall k | 0 <= k < 3
      ensures SameParameter(DefineAll(s, ds), DefineAll(t, es), es[k].name)
         <==> HeldUnder(s, es[k]) == HeldUnder(t, es[k])
    {
      SameHeld(DefineAll(s, ds), DefineAll(t, es), es[k], HeldUnder(s, es[k]), HeldUnder(t, es[k]));
    }
  }

  lemma SharedDefinitions()
    ensures |DEMO_DEFINITIONS| == 3 && |TRAINING_DEFINITIONS| == 4
    ensures forall k | 0 <= k < 3 :: TRAINING_DEFINITIONS[k] == DEMO_DEFINITIONS[k]
    ensures forall n <- SHARED_PARAMETERS :: exists k :: 0 <= k < 3 && DEMO_DEFINITIONS[k].name == n
    ensures forall k | 0 <= k < 3 :: DEMO_DEFINITIONS[k].name in SHARED_PARAMETERS
  {
    assert DEMO_DEFINITIONS[0].name == SUPPLY_PRESSURE && DEMO_DEFINITIONS[1].name == VALVE_OPENING;
    assert DEMO_DEFINITIONS[2].name == LOAD_FORCE;
  }

  lemma NewTrainingStore(s: Store)
    requires ValidStore(s)
    ensures var ds := TRAINING_DEFINITIONS;
      forall k | 0 <= k < 4 :: HoldsAs(DefineAll(s, ds), ds[k], HeldUnder(s, ds[k]))
  {
    DefinitionsDiffer();
    forall k | 0 <= k < 4 ensures Sensible(TRAINING_DEFINITIONS[k]) {
      TrainingDefinitionSensible(k);
    }
    DefinedParametersHold(s, TRAINING_DEFINITIONS);
  }

  lemma DemoDefinitionsDiffer()
    ensures forall i, j | 0 <= i < j < 3 :: DEMO_DEFINITIONS[i].name != DEMO_DEFINITIONS[j].name
  {
    var lengths := [17, 12, 9];
    forall k | 0 <= k < 3 ensures |DEMO_DEFINITIONS[k].name| == lengths[k] {
    }
  }

  lemma NewDemoStore(t: Store)
    requires ValidStore(t)
    ensures var es := DEMO_DEFINITIONS;
      forall k | 0 <= k < 3 :: HoldsAs(DefineAll(t, es), es[k], HeldUnder(t, es[k]))
  {
    DemoDefinitionsDiffer();
    forall k | 0 <= k < 3 ensures Sensible(DEMO_DEFINITIONS[k]) {
      DemoDefinitionSensible(k);
    }
    DefinedParametersHold(t, DEMO_DEFINITIONS);
  }

  lemma DefinedInTraining(s: Store, k: nat, name: string, default: real)
    requires ValidStore(s) && k < 4
    requires TRAINING_DEFINITIONS[k].name == name && TRAINING_DEFINITIONS[k].defaultValue == default
    ensures Read(DefineAll(s, TRAINING_DEFINITIONS).values, name) == Held(s, name, default)
  {
    NewTrainingStore(s);
    var d := TRAINING_DEFINITIONS[k];
    assert HoldsAs(DefineAll(s, TRAINING_DEFINITIONS), d, HeldUnder(s, d));
  }

  lemma DefinedInDemo(s: Store, k: nat, name: string, default: real)
    requires ValidStore(s) && k < 3
    requires DEMO_DEFINITIONS[k].name == name && DEMO_DEFINITIONS[k].defaultValue == default
    ensures Read(DefineAll(s, DEMO_DEFINITIONS).values, name) == Held(s, name, default)
  {
    NewDemoStore(s);
    var d := DEMO_DEFINITIONS[k];
    assert HoldsAs(DefineAll(s, DEMO_DEFINITIONS), d, HeldUnder(s, d));
  }

  /** The parameters of a new system, where the store has no others: 2000 psi, an opening of 0.2, a load of 800, and
      20 gpm. */
  lemma NewTrainingParametersHold(s: Store)
    requires ValidStore(s)
    ensures var ps := DefineAll(s, TRAINING_DEFINITIONS).values;
      && Read(ps, SUPPLY_PRESSURE) == Held(s, SUPPLY_PRESSURE, 2000.0)
      && Read(ps, VALVE_OPENING) == Held(s, VALVE_OPENING, 0.2)
      && Read(ps, LOAD_FORCE) == Held(s, LOAD_FORCE, 800.0) && Read(ps, FLOW_GAIN) == Held(s, FLOW_GAIN, 20.0)
  {
    DefinedInTraining(s, 0, SUPPLY_PRESSURE, 2000.0);
    DefinedInTraining(s, 1, VALVE_OPENING, 0.2);
    DefinedInTraining(s, 2, LOAD_FORCE, 800.0);
    DefinedInTraining(s, 3, FLOW_GAIN, 20.0);
  }

  /** And the same for the demo system, which has no gain. */
  lemma NewDemoParametersHold(s: Store)
    requires ValidStore(s)
    ensures var ps := DefineAll(s, DEMO_DEFINITIONS).values;
      && Read(ps, SUPPLY_PRESSURE) == Held(s, SUPPLY_PRESSURE, 2000.0)
      && Read(ps, VALVE_OPENING) == Held(s, VALVE_OPENING, 0.2) && Read(ps, LOAD_FORCE) == Held(s, LOAD_FORCE, 800.0)
  {
    DefinedInDemo(s, 0, SUPPLY_PRESSURE, 2000.0);
    DefinedInDemo(s, 1, VALVE_OPENING, 0.2);
    DefinedInDemo(s, 2, LOAD_FORCE, 800.0);
  }
}
