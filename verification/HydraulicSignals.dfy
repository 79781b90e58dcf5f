/** What an observer of either hydraulic system sees of a tick, in the numbers of the systems and without
    reference to their formulas. */
module HydraulicSignals {
  import opened Dataflow
  import opened Decay
  import opened Operation
  import opened HydraulicModel
  import opened HydraulicTicks
  import opened HydraulicTheorems

  // ---------- The valve ----------

  /** Downstream pressure is proportional to the supply, by a factor that the opening alone decides. */
  lemma PressureIsProportional(ph: Physics, supply: real, opening: real, k: real)
    ensures LawsOf(ph).downstream(0.0, opening) == 0.0
    ensures LawsOf(ph).downstream(1.0, opening) == ph.power(opening)
    ensures LawsOf(ph).downstream(k * supply, opening) == k * LawsOf(ph).downstream(supply, opening)
  {
    Regroup(k, supply, ph.power(opening));
  }

  /** Proportional to gain, opening and supply each; the gain is the flow at full opening and 1000 psi. */
  lemma FlowIsProportional(ph: Physics, gain: real, opening: real, supply: real)
    ensures LawsOf(ph).flow(gain, 1.0, 1000.0) == gain
    ensures 1000.0 * LawsOf(ph).flow(gain, opening, supply) == gain * opening * supply
  {
    var share := gain * opening;
    assert share * (supply / 1000.0) * 1000.0 == share * supply by { ThousandTimes(share, supply); }
  }

  lemma ThousandTimes(x: real, y: real)
    ensures 1000.0 * (x * (y / 1000.0)) == x * y
  {
    assert y == 1000.0 * (y / 1000.0);
    Regroup(1000.0, x, y / 1000.0);
    Regroup(x, 1000.0, y / 1000.0);
  }

  /** The pressure that the valve lets through: what the opening makes of 1 psi, for every psi of the supply. */
  ghost predicate Passes(ph: Physics, supply: real, opening: real, pressure: real) {
    pressure == supply * ph.power(opening)
  }

  lemma PassesAsProportional(ph: Physics, supply: real, opening: real)
    ensures Passes(ph, supply, opening, LawsOf(ph).downstream(supply, opening))
  {
    PressureIsProportional(ph, 1.0, opening, supply);
  }

  // ---------- After a tick ----------

  /** The motion answers to the pressure, the load and the step. */
  ghost predicate Answers(dt: real, pressure: real, load: real, v: real, x: real, v': real, x': real) {
    v' - v == dt * (0.002 * (pressure - load) - 0.8 * v) && x' - x == dt * v'
  }

  lemma LawsAnswer(ph: Physics, pressure: real, load: real, v: real, x: real)
    ensures var v' := LawsOf(ph).velocity(v, pressure, load);
      Answers(ph.dt, pressure, load, v, x, v', LawsOf(ph).position(x, v'))
  {
  }

  /** The pressure on the bus comes from the parameters, and it moves the actuator, as the bus shows. */
  ghost predicate Readings(sys: System, ph: Physics, r: Rig, r': Rig) {
    var ps, bus := r.store.values, r'.world.bus;
    && Passes(ph, Read(ps, SUPPLY_PRESSURE), Read(ps, VALVE_OPENING), Read(bus, DOWNSTREAM))
    && Answers(ph.dt, Read(bus, DOWNSTREAM), Read(ps, LOAD_FORCE), sys.Velocity(r), sys.Position(r),
               Read(bus, VELOCITY), Read(bus, POSITION))
    && sys.Velocity(r') == Read(bus, VELOCITY) && sys.Position(r') == Read(bus, POSITION)
  }

  lemma ShownMotion(sys: System, laws: Laws, r: Rig, r': Rig)
    requires sys.Ready(r.world) && Acts(sys, laws, r, Tick, r')
    ensures Read(r'.world.bus, VELOCITY) == sys.Velocity(r') && Read(r'.world.bus, POSITION) == sys.Position(r')
    ensures Read(r'.world.bus, DOWNSTREAM)
         == laws.downstream(Read(r.store.values, SUPPLY_PRESSURE), Read(r.store.values, VALVE_OPENING))
  {
    TickMoves(sys, laws, r.store.values, r.world, r'.world);
  }

  /** After a tick of either system, in whatever order Build chose. */
  lemma TickOnTheBus(sys: System, ph: Physics, r: Rig, r': Rig)
    requires sys.Ready(r.world) && Acts(sys, LawsOf(ph), r, Tick, r')
    ensures sys.Ready(r'.world) && Readings(sys, ph, r, r')
  {
    TickDrives(sys, LawsOf(ph), r, r');
    ShownMotion(sys, LawsOf(ph), r, r');
    PassesAsProportional(ph, Read(r.store.values, SUPPLY_PRESSURE), Read(r.store.values, VALVE_OPENING));
    LawsAnswer(ph, Read(r'.world.bus, DOWNSTREAM), Read(r.store.values, LOAD_FORCE), sys.Velocity(r), sys.Position(r));
  }

  ghost predicate OwnReadings(ps: Parameters, bus: Bus) {
    && Read(bus, UPSTREAM) == Read(ps, SUPPLY_PRESSURE) && Read(bus, SENSOR_READING) == Read(bus, DOWNSTREAM)
    && 1000.0 * Read(bus, VALVE_FLOW) == Read(ps, FLOW_GAIN) * Read(ps, VALVE_OPENING) * Read(ps, SUPPLY_PRESSURE)
  }

  lemma OwnAreRead(ph: Physics, ps: Parameters, bus: Bus)
    requires ShowsOwn(LawsOf(ph), ps, bus)
    ensures OwnReadings(ps, bus)
  {
    FlowIsProportional(ph, Read(ps, FLOW_GAIN), Read(ps, VALVE_OPENING), Read(ps, SUPPLY_PRESSURE));
  }

  /** And the training system shows the supply upstream, the flow through the valve, and a sensor that reads what
      is downstream. */
  lemma TrainingOnTheBus(ph: Physics, r: Rig, r': Rig)
    requires Training.Ready(r.world) && Acts(Training, LawsOf(ph), r, Tick, r')
    ensures OwnReadings(r.store.values, r'.world.bus)
  {
    TrainingShowsOwn(LawsOf(ph), r.store.values, r.world, r'.world);
    OwnAreRead(ph, r.store.values, r'.world.bus);
  }

  /** Over any run of either system, after every tick. */
  lemma {:induction false} RunOnTheBus(sys: System, ph: Physics, rigs: seq<Rig>, actions: seq<Action>, n: nat)
    requires IsRun(sys, LawsOf(ph), rigs, actions) && n <= |actions| && sys.Ready(rigs[0].world)
    ensures sys.Ready(rigs[n].world)
    ensures forall k: nat | k < n && actions[k].Tick? :: Readings(sys, ph, rigs[k], rigs[k + 1])
  {
    if n > 0 {
      RunOnTheBus(sys, ph, rigs, actions, n - 1);
      assert StepAt(sys, LawsOf(ph), rigs, actions, n - 1);
      if actions[n - 1].Tick? { TickOnTheBus(sys, ph, rigs[n - 1], rigs[n]); }
    }
  }
}
