/** One tick of either hydraulic system, as any order that Build may choose performs it. */
module HydraulicTicks {
  import opened Ordering
  import opened Wiring
  import opened Dataflow
  import opened SimSystem
  import opened BuilderTheorems
  import opened HydraulicModel

  // ---------- Honesty ----------

  lemma HonestTraining(laws: Laws, c: Component)
    requires forall m, ps, bus :: TrainingStep(laws, c, m, ps, bus).outputs.Keys <= NamesOf(c.outputs)
    requires forall m, ps, a, b :: Agree(a, b, NamesOf(c.inputs)) ==>
      TrainingStep(laws, c, m, ps, a) == TrainingStep(laws, c, m, ps, b)
    ensures Honest(TrainingProgram(laws), c)
  {
    var p := TrainingProgram(laws);
    assert p.inputs(c) == NamesOf(c.inputs) && p.outputs(c) == NamesOf(c.outputs);
    forall m, ps, bus ensures p.step(c, m, ps, bus) == TrainingStep(laws, c, m, ps, bus) {}
  }

  lemma SupplyHonest(laws: Laws)
    ensures Honest(TrainingProgram(laws), SUPPLY)
  {
    assert SUPPLY.outputs[0].name == UPSTREAM;
    HonestTraining(laws, SUPPLY);
  }

  lemma ValveHonest(laws: Laws)
    ensures Honest(TrainingProgram(laws), VALVE)
  {
    assert VALVE.inputs[0].name == UPSTREAM;
    assert VALVE.outputs[0].name == DOWNSTREAM && VALVE.outputs[1].name == VALVE_FLOW;
    forall m: Memory, ps, a, b | Agree(a, b, NamesOf(VALVE.inputs))
      ensures TrainingStep(laws, VALVE, m, ps, a) == TrainingStep(laws, VALVE, m, ps, b)
    {
      ReadsAgree(a, b, NamesOf(VALVE.inputs));
    }
    HonestTraining(laws, VALVE);
  }

  lemma ActuatorHonest(laws: Laws)
    ensures Honest(TrainingProgram(laws), ACTUATOR)
  {
    assert ACTUATOR.inputs[0].name == DOWNSTREAM;
    assert ACTUATOR.outputs[0].name == VELOCITY && ACTUATOR.outputs[1].name == POSITION;
    forall m: Memory, ps, a, b | Agree(a, b, NamesOf(ACTUATOR.inputs))
      ensures TrainingStep(laws, ACTUATOR, m, ps, a) == TrainingStep(laws, ACTUATOR, m, ps, b)
    {
      ReadsAgree(a, b, NamesOf(ACTUATOR.inputs));
    }
    HonestTraining(laws, ACTUATOR);
  }

  lemma SensorHonest(laws: Laws)
    ensures Honest(TrainingProgram(laws), SENSOR)
  {
    assert SENSOR.inputs[0].name == DOWNSTREAM && SENSOR.outputs[0].name == SENSOR_READING;
    forall m: Memory, ps, a, b | Agree(a, b, NamesOf(SENSOR.inputs))
      ensures TrainingStep(laws, SENSOR, m, ps, a) == TrainingStep(laws, SENSOR, m, ps, b)
    {
      ReadsAgree(a, b, NamesOf(SENSOR.inputs));
    }
    HonestTraining(laws, SENSOR);
  }

  // ---------- One tick ----------

  /** The actuator's motion; all that either system remembers. */
  function Moved(laws: Laws, ps: Parameters, m: Memory): Memory
    requires m.Motion?
  {
    var pressure := laws.downstream(Read(ps, SUPPLY_PRESSURE), Read(ps, VALVE_OPENING));
    var v := laws.velocity(m.velocity, pressure, Read(ps, LOAD_FORCE));
    Motion(v, laws.position(m.position, v))
  }

  ghost predicate TrainingHolds(w: World<Component, Memory>, m: Memory) {
    && (forall c <- TRAINING_ADDED :: c in w.memory)
    && ACTUATOR in w.memory && w.memory[ACTUATOR] == m && m.Motion?
  }

  ghost predicate DemoHolds(w: World<Component, Memory>, m: Memory) {
    && (forall c <- DEMO_COMPONENTS :: c in w.memory)
    && DEMO_ACTUATOR in w.memory && w.memory[DEMO_ACTUATOR] == m && m.Motion?
  }

  /** What both systems show alike after a tick that started from motion `m`. */
  ghost predicate ShowsShared(laws: Laws, ps: Parameters, m: Memory, bus: Bus)
    requires m.Motion?
  {
    && Read(bus, DOWNSTREAM) == laws.downstream(Read(ps, SUPPLY_PRESSURE), Read(ps, VALVE_OPENING))
    && Read(bus, VELOCITY) == Moved(laws, ps, m).velocity
    && Read(bus, POSITION) == Moved(laws, ps, m).position
  }

  /** What the training system shows besides: supply pressure, valve flow and the sensor's reading. */
  ghost predicate ShowsOwn(laws: Laws, ps: Parameters, bus: Bus) {
    && Read(bus, UPSTREAM) == Read(ps, SUPPLY_PRESSURE)
    && Read(bus, VALVE_FLOW) == laws.flow(Read(ps, FLOW_GAIN), Read(ps, VALVE_OPENING), Read(ps, SUPPLY_PRESSURE))
    && Read(bus, SENSOR_READING) == Read(bus, DOWNSTREAM)
  }

  lemma FourTicks<T(!new), S, I>(p: Program<T, S, I>, input: I, w: World<T, S>, a: T, b: T, c: T, d: T)
    requires a in w.memory && b in w.memory && c in w.memory && d in w.memory
    ensures TickAll(p, input, w, [a, b, c, d])
         == TickOne(p, input, TickOne(p, input, TickOne(p, input, TickOne(p, input, w, a), b), c), d)
  {
    assert [a, b, c, d][..3] == [a, b, c] && [a, b, c][..2] == [a, b] && [a, b][..1] == [a];
    assert TickAll(p, input, w, [a]) == TickOne(p, input, w, a);
    assert TickAll(p, input, w, [a, b]) == TickOne(p, input, TickAll(p, input, w, [a]), b);
    assert TickAll(p, input, w, [a, b, c]) == TickOne(p, input, TickAll(p, input, w, [a, b]), c);
  }

  lemma TwoTicks<T(!new), S, I>(p: Program<T, S, I>, input: I, w: World<T, S>, a: T, b: T)
    requires a in w.memory && b in w.memory
    ensures TickAll(p, input, w, [a, b]) == TickOne(p, input, TickOne(p, input, w, a), b)
  {
    assert [a, b][..1] == [a];
    assert TickAll(p, input, w, [a]) == TickOne(p, input, w, a);
  }

  lemma IdsDiffer()
    ensures SUPPLY.id == 0 && VALVE.id == 1 && ACTUATOR.id == 2 && SENSOR.id == 3
    ensures PRESSURE_DROP.id == 0 && DEMO_ACTUATOR.id == 1
  {
  }

  lemma SupplyTick(laws: Laws, ps: Parameters, w: World<Component, Memory>, m: Memory)
      returns (w': World<Component, Memory>)
    requires TrainingHolds(w, m) && SUPPLY in w.memory
    ensures w' == TickOne(TrainingProgram(laws), ps, w, SUPPLY)
    ensures w'.memory == w.memory && Read(w'.bus, UPSTREAM) == Read(ps, SUPPLY_PRESSURE)
  {
    IdsDiffer();
    w' := TickOne(TrainingProgram(laws), ps, w, SUPPLY);
  }

  lemma ValveTick(laws: Laws, ps: Parameters, w: World<Component, Memory>, m: Memory)
    returns (w': World<Component, Memory>)
    requires TrainingHolds(w, m) && VALVE in w.memory
    ensures w' == TickOne(TrainingProgram(laws), ps, w, VALVE)
    ensures w'.memory == w.memory
    ensures Read(w'.bus, DOWNSTREAM) == laws.downstream(Read(w.bus, UPSTREAM), Read(ps, VALVE_OPENING))
    ensures Read(w'.bus, VALVE_FLOW) == laws.flow(Read(ps, FLOW_GAIN), Read(ps, VALVE_OPENING), Read(w.bus, UPSTREAM))
    ensures Read(w'.bus, UPSTREAM) == Read(w.bus, UPSTREAM)
  {
    IdsDiffer();
    w' := TickOne(TrainingProgram(laws), ps, w, VALVE);
  }

  lemma ActuatorTick(laws: Laws, ps: Parameters, w: World<Component, Memory>, m: Memory)
      returns (w': World<Component, Memory>)
    requires TrainingHolds(w, m)
    ensures w' == TickOne(TrainingProgram(laws), ps, w, ACTUATOR)
    ensures var e := ActuatorEffect(laws, m, ps, w.bus);
      w'.memory == w.memory[ACTUATOR := e.memory] && w'.bus == w.bus + e.outputs
  {
    IdsDiffer();
    w' := TickOne(TrainingProgram(laws), ps, w, ACTUATOR);
  }

  lemma SensorTick(laws: Laws, ps: Parameters, w: World<Component, Memory>, m: Memory)
      returns (w': World<Component, Memory>)
    requires TrainingHolds(w, m) && SENSOR in w.memory
    ensures w' == TickOne(TrainingProgram(laws), ps, w, SENSOR)
    ensures w'.memory == w.memory && w'.bus == w.bus[SENSOR_READING := Read(w.bus, DOWNSTREAM)]
  {
    IdsDiffer();
    w' := TickOne(TrainingProgram(laws), ps, w, SENSOR);
  }

  /** What the actuator and the sensor add to what supply and valve show. */
  lemma MotionShown(laws: Laws, ps: Parameters, m: Memory, bus: Bus)
    requires m.Motion? && Read(bus, UPSTREAM) == Read(ps, SUPPLY_PRESSURE)
    requires Read(bus, DOWNSTREAM) == laws.downstream(Read(ps, SUPPLY_PRESSURE), Read(ps, VALVE_OPENING))
    requires Read(bus, VALVE_FLOW) == laws.flow(Read(ps, FLOW_GAIN), Read(ps, VALVE_OPENING), Read(ps, SUPPLY_PRESSURE))
    ensures var e := ActuatorEffect(laws, m, ps, bus);
      var moved := bus + e.outputs;
      var after := moved[SENSOR_READING := Read(moved, DOWNSTREAM)];
      e.memory == Moved(laws, ps, m) && ShowsShared(laws, ps, m, after) && ShowsOwn(laws, ps, after)
  {
  }

  /** The training system's tick along the layers. */
  lemma LayeredTrainingTick(laws: Laws, ps: Parameters, w: World<Component, Memory>, m: Memory)
    requires TrainingHolds(w, m)
    ensures forall c <- TRAINING_LAYERS :: c in w.memory
    ensures var w' := TickAll(TrainingProgram(laws), ps, w, TRAINING_LAYERS);
      TrainingHolds(w', Moved(laws, ps, m)) && ShowsShared(laws, ps, m, w'.bus) && ShowsOwn(laws, ps, w'.bus)
  {
    assert SUPPLY in TRAINING_ADDED && VALVE in TRAINING_ADDED && SENSOR in TRAINING_ADDED;
    FourTicks(TrainingProgram(laws), ps, w, SUPPLY, VALVE, ACTUATOR, SENSOR);
    var w1 := SupplyTick(laws, ps, w, m);
    var w2 := ValveTick(laws, ps, w1, m);
    var w3 := ActuatorTick(laws, ps, w2, m);
    MotionShown(laws, ps, m, w2.bus);
    assert w3.memory[ACTUATOR] == Moved(laws, ps, m);
    var w4 := SensorTick(laws, ps, w3, Moved(laws, ps, m));
  }

  lemma TrainingFits(laws: Laws, w: World<Component, Memory>, m: Memory)
    requires TrainingHolds(w, m)
    ensures Fits(TrainingProgram(laws), TRAINING_ADDED, w)
  {
    SupplyHonest(laws);
    ValveHonest(laws);
    ActuatorHonest(laws);
    SensorHonest(laws);
    forall c | c in TRAINING_ADDED ensures Honest(TrainingProgram(laws), c) {
      var k :| 0 <= k < 4 && TRAINING_ADDED[k] == c;
    }
  }

  /** The same for the order that Build makes of the out-of-order Add calls. */
  lemma TrainingTick(laws: Laws, ps: Parameters, w: World<Component, Memory>, m: Memory, order: seq<Component>)
    requires TrainingHolds(w, m) && StableOrder(Dependencies(TRAINING_ADDED), order)
    ensures forall c <- order :: c in w.memory
    ensures var w' := TickAll(TrainingProgram(laws), ps, w, order);
      TrainingHolds(w', Moved(laws, ps, m)) && ShowsShared(laws, ps, m, w'.bus) && ShowsOwn(laws, ps, w'.bus)
  {
    var p := TrainingProgram(laws);
    TrainingIsAccepted();
    TrainingFits(laws, w, m);
    LayeredTrainingTick(laws, ps, w, m);
    BuiltIsSchedule(p, TRAINING_ADDED, w, order);
    TopologicalIsSchedule(p, TRAINING_ADDED, TRAINING_LAYERS);
    TickSolves(p, SetOf(TRAINING_ADDED), ps, w, TRAINING_LAYERS);
    TickIsTheSolution(p, SetOf(TRAINING_ADDED), ps, w, order, TickAll(p, ps, w, TRAINING_LAYERS));
  }

  lemma DropTick(laws: Laws, ps: Parameters, w: World<Component, Memory>, m: Memory)
    returns (w': World<Component, Memory>)
    requires DemoHolds(w, m) && PRESSURE_DROP in w.memory
    ensures w' == TickOne(DemoProgram(laws), ps, w, PRESSURE_DROP)
    ensures w'.memory == w.memory
    ensures Read(w'.bus, DOWNSTREAM) == laws.downstream(Read(ps, SUPPLY_PRESSURE), Read(ps, VALVE_OPENING))
  {
    IdsDiffer();
    w' := TickOne(DemoProgram(laws), ps, w, PRESSURE_DROP);
  }

  lemma DemoActuatorTick(laws: Laws, ps: Parameters, w: World<Component, Memory>, m: Memory)
      returns (w': World<Component, Memory>)
    requires DemoHolds(w, m)
    ensures w' == TickOne(DemoProgram(laws), ps, w, DEMO_ACTUATOR)
    ensures var e := ActuatorEffect(laws, m, ps, w.bus);
      w'.memory == w.memory[DEMO_ACTUATOR := e.memory] && w'.bus == w.bus + e.outputs
  {
    IdsDiffer();
    w' := TickOne(DemoProgram(laws), ps, w, DEMO_ACTUATOR);
  }

  lemma DemoShown(laws: Laws, ps: Parameters, m: Memory, bus: Bus)
    requires m.Motion? && Read(bus, DOWNSTREAM) == laws.downstream(Read(ps, SUPPLY_PRESSURE), Read(ps, VALVE_OPENING))
    ensures var e := ActuatorEffect(laws, m, ps, bus);
      e.memory == Moved(laws, ps, m) && ShowsShared(laws, ps, m, bus + e.outputs)
  {
  }

  lemma TopologicalDemoTick(laws: Laws, ps: Parameters, w: World<Component, Memory>, m: Memory)
    requires DemoHolds(w, m)
    ensures var w' := TickAll(DemoProgram(laws), ps, w, DEMO_COMPONENTS);
      DemoHolds(w', Moved(laws, ps, m)) && ShowsShared(laws, ps, m, w'.bus)
  {
    assert PRESSURE_DROP in DEMO_COMPONENTS && DEMO_ACTUATOR in DEMO_COMPONENTS;
    TwoTicks(DemoProgram(laws), ps, w, PRESSURE_DROP, DEMO_ACTUATOR);
    var w1 := DropTick(laws, ps, w, m);
    var w2 := DemoActuatorTick(laws, ps, w1, m);
    DemoShown(laws, ps, m, w1.bus);
  }

  /** The demo system's tick, in the order that Build chooses. */
  lemma DemoTick(laws: Laws, ps: Parameters, w: World<Component, Memory>, m: Memory, order: seq<Component>)
    requires DemoHolds(w, m) && StableOrder(Dependencies(DEMO_COMPONENTS), order)
    ensures order == DEMO_COMPONENTS
    ensures var w' := TickAll(DemoProgram(laws), ps, w, order);
      DemoHolds(w', Moved(laws, ps, m)) && ShowsShared(laws, ps, m, w'.bus)
  {
    DemoIsAccepted();
    TopologicalAddOrderIsKept(DEMO_COMPONENTS, order);
    TopologicalDemoTick(laws, ps, w, m);
  }
}
