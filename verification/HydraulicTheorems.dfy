/** Whole runs of the two hydraulic systems: they agree, and their motion obeys a ledger and a closed form. */
module HydraulicTheorems {
  import opened ParameterStore
  import opened Ordering
  import opened Wiring
  import opened Dataflow
  import opened Decay
  import opened Operation
  import opened HydraulicModel
  import opened HydraulicTicks

  // ---------- The order that Build makes of the out-of-order Add calls ----------

  /** A source, its reader, and two readers of that one, added back to front. */
  lemma ForkIsSorted<T(!new)>(g: Graph<T>, a: T, b: T, c: T, d: T)
    requires g.nodes == [c, d, b, a] && Topological(g, [a, b, c, d])
    requires (a, b) in g.arrows && (b, c) in g.arrows && (b, d) in g.arrows
    ensures StableOrder(g, [a, b, c, d])
  {
    var s := [a, b, c, d];
    assert s[0] == a && s[1] == b && s[2] == c && s[3] == d;
    assert s[..0] == [] && s[..1] == [a] && s[..2] == [a, b] && s[..3] == [a, b, c];
    forall k: nat | k < 4 ensures StablePick(g, s[..k], s[k]) {
      TopologicalIsReady(g, s, k);
      assert a in Blocking(g, [], b) && b in Blocking(g, [], c) && b in Blocking(g, [], d);
      assert b in Blocking(g, [a], c) && b in Blocking(g, [a], d);
    }
  }

  lemma SharedNameIsEdge(a: Component, b: Component, n: string)
    requires a.id != b.id && n in NamesOf(a.outputs) && n in NamesOf(b.inputs)
    ensures Edge(a, b)
  {
  }

  lemma TrainingEdges()
    ensures Edge(SUPPLY, VALVE) && Edge(VALVE, ACTUATOR) && Edge(VALVE, SENSOR)
  {
    IdsDiffer();
    assert SUPPLY.outputs[0].name == VALVE.inputs[0].name == UPSTREAM;
    SharedNameIsEdge(SUPPLY, VALVE, UPSTREAM);
    assert VALVE.outputs[0].name == ACTUATOR.inputs[0].name == SENSOR.inputs[0].name == DOWNSTREAM;
    SharedNameIsEdge(VALVE, ACTUATOR, DOWNSTREAM);
    SharedNameIsEdge(VALVE, SENSOR, DOWNSTREAM);
  }

  lemma AddedMembers()
    ensures SUPPLY in TRAINING_ADDED && VALVE in TRAINING_ADDED && ACTUATOR in TRAINING_ADDED
    ensures SENSOR in TRAINING_ADDED
  {
    assert TRAINING_ADDED[0] == ACTUATOR && TRAINING_ADDED[1] == SENSOR;
    assert TRAINING_ADDED[2] == VALVE && TRAINING_ADDED[3] == SUPPLY;
  }

  lemma LayersAreStable()
    ensures StableOrder(Dependencies(TRAINING_ADDED), TRAINING_LAYERS)
  {
    TrainingIsAccepted();
    AddedMembers();
    TrainingEdges();
    ForkIsSorted(Dependencies(TRAINING_ADDED), SUPPLY, VALVE, ACTUATOR, SENSOR);
  }

  /** Build puts the training components right: supply, valve, actuator, sensor. */
  lemma TrainingOrder(order: seq<Component>)
    requires StableOrder(Dependencies(TRAINING_ADDED), order)
    ensures order == TRAINING_LAYERS
  {
    LayersAreStable();
    StableIsUnique(Dependencies(TRAINING_ADDED), order, TRAINING_LAYERS);
  }

  // ---------- Either system ----------

  datatype System = Training | Demo {
    function Program(laws: Laws): Program<Component, Memory, Parameters> {
      if Training? then TrainingProgram(laws) else DemoProgram(laws)
    }

    function Added(): seq<Component> { if Training? then TRAINING_ADDED else DEMO_COMPONENTS }

    function Actuator(): Component { if Training? then ACTUATOR else DEMO_ACTUATOR }

    ghost predicate Holds(w: World<Component, Memory>, m: Memory) {
      if Training? then TrainingHolds(w, m) else DemoHolds(w, m)
    }

    function Motion(w: World<Component, Memory>): Memory {
      if Actuator() in w.memory then w.memory[Actuator()] else Stateless
    }

    /** The system's components are there, its actuator with a motion. */
    ghost predicate Ready(w: World<Component, Memory>) { Holds(w, Motion(w)) }

    function Velocity(r: Rig): real { if Motion(r.world).Motion? then Motion(r.world).velocity else 0.0 }

    function Position(r: Rig): real { if Motion(r.world).Motion? then Motion(r.world).position else 0.0 }
  }

  /** A system's world and the store it was given. */
  datatype Rig = Rig(store: Store, world: World<Component, Memory>)

  /** A tick in whatever order Build chose. */
  ghost predicate Ticked(sys: System, laws: Laws, ps: Parameters, w: World<Component, Memory>,
                         w': World<Component, Memory>) {
    exists order ::
      && StableOrder(Dependencies(sys.Added()), order)
      && (forall c <- order :: c in w.memory)
      && w' == TickAll(sys.Program(laws), ps, w, order)
  }

  lemma TrainingTicked(laws: Laws, ps: Parameters, w: World<Component, Memory>, w': World<Component, Memory>)
    requires forall c <- TRAINING_LAYERS :: c in w.memory
    requires w' == TickAll(TrainingProgram(laws), ps, w, TRAINING_LAYERS)
    ensures Ticked(Training, laws, ps, w, w')
  {
    LayersAreStable();
    assert Training.Added() == TRAINING_ADDED && Training.Program(laws) == TrainingProgram(laws);
  }

  lemma DemoTicked(laws: Laws, ps: Parameters, w: World<Component, Memory>, w': World<Component, Memory>)
    requires (forall c <- DEMO_COMPONENTS :: c in w.memory) && w' == TickAll(DemoProgram(laws), ps, w, DEMO_COMPONENTS)
    ensures Ticked(Demo, laws, ps, w, w')
  {
    DemoIsAccepted();
    AddOrderIsKept(Dependencies(DEMO_COMPONENTS));
    assert Demo.Added() == DEMO_COMPONENTS && Demo.Program(laws) == DemoProgram(laws);
  }

  lemma TickMoves(sys: System, laws: Laws, ps: Parameters, w: World<Component, Memory>, w': World<Component, Memory>)
    requires sys.Ready(w) && Ticked(sys, laws, ps, w, w')
    ensures sys.Motion(w).Motion? && sys.Ready(w') && sys.Motion(w') == Moved(laws, ps, sys.Motion(w))
    ensures ShowsShared(laws, ps, sys.Motion(w), w'.bus)
  {
    var m := sys.Motion(w);
    var order :| && StableOrder(Dependencies(sys.Added()), order)
                 && (forall c <- order :: c in w.memory)
                 && w' == TickAll(sys.Program(laws), ps, w, order);
    if sys.Training? {
      TrainingTick(laws, ps, w, m, order);
    } else {
      DemoTick(laws, ps, w, m, order);
    }
  }

  lemma TrainingShowsOwn(laws: Laws, ps: Parameters, w: World<Component, Memory>, w': World<Component, Memory>)
    requires Training.Ready(w) && Ticked(Training, laws, ps, w, w')
    ensures ShowsOwn(laws, ps, w'.bus)
  {
    var order :| && StableOrder(Dependencies(Training.Added()), order)
                 && (forall c <- order :: c in w.memory)
                 && w' == TickAll(Training.Program(laws), ps, w, order);
    TrainingTick(laws, ps, w, Training.Motion(w), order);
  }

  // ---------- Runs ----------

  ghost predicate Acts(sys: System, laws: Laws, r: Rig, a: Action, r': Rig) {
    match a
    case Edit(name, value) => ValidStore(r.store) && r' == Rig(AfterSet(r.store, name, value), r.world)
    case Tick => r'.store == r.store && Ticked(sys, laws, r.store.values, r.world, r'.world)
  }

  ghost predicate StepAt(sys: System, laws: Laws, rigs: seq<Rig>, actions: seq<Action>, k: nat)
    requires |rigs| == |actions| + 1
  {
    k < |actions| ==> Acts(sys, laws, rigs[k], actions[k], rigs[k + 1])
  }

  /** The states that a system goes through under a sequence of edits and ticks. */
  ghost predicate IsRun(sys: System, laws: Laws, rigs: seq<Rig>, actions: seq<Action>) {
    |rigs| == |actions| + 1 && forall k: nat :: StepAt(sys, laws, rigs, actions, k)
  }

  // ---------- The two systems agree ----------

  const SHARED_PARAMETERS: set<string> := {SUPPLY_PRESSURE, VALVE_OPENING, LOAD_FORCE}

  const SHARED_SIGNALS: set<string> := {DOWNSTREAM, VELOCITY, POSITION}

  ghost predicate SameParameter(s: Store, t: Store, n: string) {
    && n in s.values && n in t.values && s.values[n] == t.values[n]
    && n in s.definitions && n in t.definitions
    && s.definitions[n].min == t.definitions[n].min && s.definitions[n].max == t.definitions[n].max
  }

  /** The stores agree on the shared parameters, the actuators move alike, the buses show it alike. */
  ghost predicate Alike(a: Rig, b: Rig) {
    && ValidStore(a.store) && ValidStore(b.store)
    && (forall n <- SHARED_PARAMETERS :: SameParameter(a.store, b.store, n))
    && Training.Ready(a.world) && Demo.Ready(b.world) && Training.Motion(a.world) == Demo.Motion(b.world)
    && (forall n <- SHARED_SIGNALS :: Read(a.world.bus, n) == Read(b.world.bus, n))
  }

  lemma EditsAlike(s: Store, t: Store, name: string, value: real, n: string)
    requires ValidStore(s) && ValidStore(t) && SameParameter(s, t, n) && n != ""
    ensures SameParameter(AfterSet(s, name, value), AfterSet(t, name, value), n)
  {
    if name == n {
      assert Applied(s, name, value).0 == Applied(t, name, value).0;
    }
  }

  lemma EditKeepsValid(s: Store, name: string, value: real)
    requires ValidStore(s)
    ensures ValidStore(AfterSet(s, name, value))
  {
  }

  lemma MovesAlike(laws: Laws, s: Store, t: Store, m: Memory)
    requires m.Motion? && forall n <- SHARED_PARAMETERS :: SameParameter(s, t, n)
    ensures Moved(laws, s.values, m) == Moved(laws, t.values, m)
    ensures forall a, b | ShowsShared(laws, s.values, m, a) && ShowsShared(laws, t.values, m, b) ::
      forall n <- SHARED_SIGNALS :: Read(a, n) == Read(b, n)
  {
    SharedReads(s, t);
  }

  lemma TicksAlike(laws: Laws, a: Rig, b: Rig, a': Rig, b': Rig)
    requires Alike(a, b) && Acts(Training, laws, a, Tick, a') && Acts(Demo, laws, b, Tick, b')
    ensures Alike(a', b')
  {
    TickMoves(Training, laws, a.store.values, a.world, a'.world);
    TickMoves(Demo, laws, b.store.values, b.world, b'.world);
    MovesAlike(laws, a.store, b.store, Training.Motion(a.world));
  }

  lemma SharedReads(s: Store, t: Store)
    requires forall n <- SHARED_PARAMETERS :: SameParameter(s, t, n)
    ensures Read(s.values, SUPPLY_PRESSURE) == Read(t.values, SUPPLY_PRESSURE)
    ensures Read(s.values, VALVE_OPENING) == Read(t.values, VALVE_OPENING)
    ensures Read(s.values, LOAD_FORCE) == Read(t.values, LOAD_FORCE)
  {
    assert SameParameter(s, t, SUPPLY_PRESSURE) && SameParameter(s, t, VALVE_OPENING);
    assert SameParameter(s, t, LOAD_FORCE);
  }

  lemma ActsAlike(laws: Laws, a: Rig, b: Rig, act: Action, a': Rig, b': Rig)
    requires Alike(a, b) && Acts(Training, laws, a, act, a') && Acts(Demo, laws, b, act, b')
    ensures Alike(a', b')
  {
    match act
    case Tick => TicksAlike(laws, a, b, a', b');
    case Edit(name, value) =>
      EditKeepsValid(a.store, name, value);
      EditKeepsValid(b.store, name, value);
      forall n | n in SHARED_PARAMETERS ensures SameParameter(a'.store, b'.store, n) {
        EditsAlike(a.store, b.store, name, value, n);
      }
  }

  /** Under one sequence of edits and ticks, edits of the gain that only one of them knows included, the two
      systems stay alike: after every action they show the same pressure, velocity and position. */
  lemma {:induction false} SystemsAgree(laws: Laws, training: seq<Rig>, demo: seq<Rig>, actions: seq<Action>, n: nat)
    requires IsRun(Training, laws, training, actions) && IsRun(Demo, laws, demo, actions)
    requires Alike(training[0], demo[0]) && n <= |actions|
    ensures Alike(training[n], demo[n])
  {
    if n > 0 {
      var k := n - 1;
      SystemsAgree(laws, training, demo, actions, k);
      assert StepAt(Training, laws, training, actions, k);
      assert StepAt(Demo, laws, demo, actions, k);
      ActsAlike(laws, training[k], demo[k], actions[k], training[k + 1], demo[k + 1]);
    }
  }

  // ---------- The ledger of the motion ----------

  /** Acceleration is 0.002 of the drive less 0.8 of the velocity, and moves velocity and position in turn. */
  ghost predicate Damped(laws: Laws, dt: real) {
    && (forall v, p, l :: laws.velocity(v, p, l) == v + ((p - l) * 0.002 - 0.8 * v) * dt)
    && (forall x, v :: laws.position(x, v) == x + v * dt)
  }

  lemma LawsAreDamped(ph: Physics)
    ensures Damped(LawsOf(ph), ph.dt)
  {
  }

  /** What only the drive, pressure less load, can change. */
  function Momentum(dt: real, v: real, x: real): real { (1.0 - 0.8 * dt) * v + 0.8 * x }

  /** What a drive adds to it in one tick. */
  function Impulse(dt: real, drive: real): real { 0.002 * dt * drive }

  lemma MomentumStep(laws: Laws, dt: real, v: real, x: real, p: real, l: real)
    requires Damped(laws, dt)
    ensures var v' := laws.velocity(v, p, l);
      Momentum(dt, v', laws.position(x, v')) == Momentum(dt, v, x) + Impulse(dt, p - l)
  {
    var v' := laws.velocity(v, p, l);
    var push, drag := v' * dt, v * dt;
    assert v' == v + 0.002 * dt * (p - l) - 0.8 * drag;
    assert Momentum(dt, v', laws.position(x, v')) == v' - 0.8 * push + 0.8 * (x + push);
    assert Momentum(dt, v, x) == v - 0.8 * drag + 0.8 * x;
  }

  /** One tick of either system, seen from its actuator. */
  lemma TickDrives(sys: System, laws: Laws, r: Rig, r': Rig)
    requires sys.Ready(r.world) && Acts(sys, laws, r, Tick, r')
    ensures sys.Ready(r'.world)
    ensures sys.Velocity(r') == laws.velocity(sys.Velocity(r), Read(r'.world.bus, DOWNSTREAM),
                                              Read(r.store.values, LOAD_FORCE))
    ensures sys.Position(r') == laws.position(sys.Position(r), sys.Velocity(r'))
  {
    TickMoves(sys, laws, r.store.values, r.world, r'.world);
  }

  /** Pressure less load, in a tick. */
  function Drive(r: Rig, a: Action, r': Rig): real {
    if a.Tick? then Read(r'.world.bus, DOWNSTREAM) - Read(r.store.values, LOAD_FORCE) else 0.0
  }

  ghost predicate Gains(sys: System, dt: real, r: Rig, r': Rig, drive: real) {
    Momentum(dt, sys.Velocity(r'), sys.Position(r'))
    == Momentum(dt, sys.Velocity(r), sys.Position(r)) + Impulse(dt, drive)
  }

  lemma TickGains(sys: System, laws: Laws, dt: real, r: Rig, r': Rig, p: real, l: real)
    requires Damped(laws, dt)
    requires sys.Velocity(r') == laws.velocity(sys.Velocity(r), p, l)
    requires sys.Position(r') == laws.position(sys.Position(r), sys.Velocity(r'))
    ensures Gains(sys, dt, r, r', p - l)
  {
    MomentumStep(laws, dt, sys.Velocity(r), sys.Position(r), p, l);
  }

  lemma RestGains(sys: System, dt: real, r: Rig, r': Rig)
    requires sys.Velocity(r') == sys.Velocity(r) && sys.Position(r') == sys.Position(r)
    ensures Gains(sys, dt, r, r', 0.0)
  {
  }

  lemma ActGains(sys: System, laws: Laws, dt: real, r: Rig, a: Action, r': Rig)
    requires Damped(laws, dt) && sys.Ready(r.world) && Acts(sys, laws, r, a, r')
    ensures sys.Ready(r'.world) && Gains(sys, dt, r, r', Drive(r, a, r'))
  {
    if a.Tick? {
      TickDrives(sys, laws, r, r');
      TickGains(sys, laws, dt, r, r', Read(r'.world.bus, DOWNSTREAM), Read(r.store.values, LOAD_FORCE));
    } else {
      RestGains(sys, dt, r, r');
    }
  }

  /** The drives of the first `n` actions of a run. */
  function Drives(rigs: seq<Rig>, actions: seq<Action>, n: nat): real
    requires n <= |actions| < |rigs|
  {
    if n == 0 then 0.0 else Drives(rigs, actions, n - 1) + Drive(rigs[n - 1], actions[n - 1], rigs[n])
  }

  lemma GainsAddUp(sys: System, dt: real, r: Rig, s: Rig, t: Rig, d: real, e: real)
    requires Gains(sys, dt, r, s, d) && Gains(sys, dt, s, t, e)
    ensures Gains(sys, dt, r, t, d + e)
  {
    Distribute(d, e, 0.002 * dt);
  }

  ghost predicate GainsAt(sys: System, dt: real, rigs: seq<Rig>, actions: seq<Action>, k: nat)
    requires |rigs| == |actions| + 1
  {
    k < |actions| ==> Gains(sys, dt, rigs[k], rigs[k + 1], Drive(rigs[k], actions[k], rigs[k + 1]))
  }

  lemma EveryActGains(sys: System, laws: Laws, dt: real, rigs: seq<Rig>, actions: seq<Action>)
    requires Damped(laws, dt) && IsRun(sys, laws, rigs, actions) && sys.Ready(rigs[0].world)
    ensures forall k: nat :: GainsAt(sys, dt, rigs, actions, k)
  {
    var k := 0;
    while k < |actions|
      invariant k <= |actions| && sys.Ready(rigs[k].world)
      invariant forall i: nat | i < k :: GainsAt(sys, dt, rigs, actions, i)
    {
      assert StepAt(sys, laws, rigs, actions, k);
      ActGains(sys, laws, dt, rigs[k], actions[k], rigs[k + 1]);
      k := k + 1;
    }
  }

  lemma {:induction false} AllGains(sys: System, dt: real, rigs: seq<Rig>, actions: seq<Action>, n: nat)
    requires |rigs| == |actions| + 1 && n <= |actions| && forall k: nat :: GainsAt(sys, dt, rigs, actions, k)
    ensures Gains(sys, dt, rigs[0], rigs[n], Drives(rigs, actions, n))
  {
    if n > 0 {
      AllGains(sys, dt, rigs, actions, n - 1);
      assert GainsAt(sys, dt, rigs, actions, n - 1);
      GainsAddUp(sys, dt, rigs[0], rigs[n - 1], rigs[n], Drives(rigs, actions, n - 1),
                 Drive(rigs[n - 1], actions[n - 1], rigs[n]));
    }
  }

  /** Whatever is edited when, the momentum of either system is what it was plus its share of all drives. */
  lemma MomentumBalances(sys: System, laws: Laws, dt: real, rigs: seq<Rig>, actions: seq<Action>, n: nat)
    requires Damped(laws, dt) && IsRun(sys, laws, rigs, actions) && sys.Ready(rigs[0].world) && n <= |actions|
    ensures Gains(sys, dt, rigs[0], rigs[n], Drives(rigs, actions, n))
  {
    EveryActGains(sys, laws, dt, rigs, actions);
    AllGains(sys, dt, rigs, actions, n);
  }

  // ---------- The closed form under a constant drive ----------

  /** The drive that the parameters call for. */
  function DriveOf(laws: Laws, ps: Parameters): real {
    laws.downstream(Read(ps, SUPPLY_PRESSURE), Read(ps, VALVE_OPENING)) - Read(ps, LOAD_FORCE)
  }

  /** Every tick among the first `n` actions finds parameters that call for the drive `d`. */
  ghost predicate SteadyDrive(laws: Laws, rigs: seq<Rig>, actions: seq<Action>, n: nat, d: real) {
    n <= |actions| < |rigs| && forall k: nat | k < n && actions[k].Tick? :: DriveOf(laws, rigs[k].store.values) == d
  }

  /** The velocity at which drive and damping balance. */
  function Terminal(drive: real): real { 0.002 * drive / 0.8 }

  lemma VelocityStep(laws: Laws, dt: real, v: real, p: real, l: real)
    requires Damped(laws, dt)
    ensures laws.velocity(v, p, l) - Terminal(p - l) == (v - Terminal(p - l)) * (1.0 - 0.8 * dt)
  {
    var t := Terminal(p - l);
    assert (p - l) * 0.002 == 0.8 * t;
    assert (0.8 * t - 0.8 * v) * dt == (v - t) * (-0.8 * dt);
    assert (v - t) * (1.0 - 0.8 * dt) == (v - t) + (v - t) * (-0.8 * dt);
  }

  /** A tick's drive is the one that its parameters call for. */
  lemma TickShowsDrive(sys: System, laws: Laws, r: Rig, r': Rig)
    requires sys.Ready(r.world) && Acts(sys, laws, r, Tick, r')
    ensures sys.Ready(r'.world) && Drive(r, Tick, r') == DriveOf(laws, r.store.values)
    ensures exists p, l {:trigger laws.velocity(sys.Velocity(r), p, l)} ::
      p - l == DriveOf(laws, r.store.values) && sys.Velocity(r') == laws.velocity(sys.Velocity(r), p, l)
  {
    TickDrives(sys, laws, r, r');
    TickMoves(sys, laws, r.store.values, r.world, r'.world);
  }

  /** One tick leaves of the velocity's distance from `t` all but the share `a`. */
  ghost predicate Nears(v: real, v': real, t: real, a: real) { v' - t == (v - t) * (1.0 - a) }

  lemma LawNears(laws: Laws, dt: real, v: real, p: real, l: real, d: real, t: real, a: real)
    requires Damped(laws, dt) && p - l == d && t == Terminal(d) && a == 0.8 * dt
    ensures Nears(v, laws.velocity(v, p, l), t, a)
  {
    VelocityStep(laws, dt, v, p, l);
  }

  lemma TickNears(sys: System, laws: Laws, dt: real, r: Rig, r': Rig, d: real, t: real, a: real)
    requires Damped(laws, dt) && sys.Ready(r.world) && Acts(sys, laws, r, Tick, r')
    requires DriveOf(laws, r.store.values) == d && t == Terminal(d) && a == 0.8 * dt
    ensures Nears(sys.Velocity(r), sys.Velocity(r'), t, a)
  {
    TickShowsDrive(sys, laws, r, r');
    var p, l :| p - l == d && sys.Velocity(r') == laws.velocity(sys.Velocity(r), p, l);
    LawNears(laws, dt, sys.Velocity(r), p, l, d, t, a);
  }

  /** What action `k` of a run does under a constant drive. */
  ghost predicate MovesAt(sys: System, rigs: seq<Rig>, actions: seq<Action>, t: real, a: real, d: real, k: nat)
    requires |rigs| == |actions| + 1
  {
    k < |actions| ==>
      if actions[k].Tick? then
        Nears(sys.Velocity(rigs[k]), sys.Velocity(rigs[k + 1]), t, a) && Drive(rigs[k], Tick, rigs[k + 1]) == d
      else sys.Velocity(rigs[k + 1]) == sys.Velocity(rigs[k])
  }

  lemma ActMoves(sys: System, laws: Laws, dt: real, rigs: seq<Rig>, actions: seq<Action>, t: real, a: real, d: real,
                 k: nat)
    requires Damped(laws, dt) && IsRun(sys, laws, rigs, actions) && k < |actions| && sys.Ready(rigs[k].world)
    requires (actions[k].Tick? ==> DriveOf(laws, rigs[k].store.values) == d) && t == Terminal(d) && a == 0.8 * dt
    ensures sys.Ready(rigs[k + 1].world) && MovesAt(sys, rigs, actions, t, a, d, k)
  {
    assert StepAt(sys, laws, rigs, actions, k);
    if actions[k].Tick? {
      TickShowsDrive(sys, laws, rigs[k], rigs[k + 1]);
      TickNears(sys, laws, dt, rigs[k], rigs[k + 1], d, t, a);
    }
  }

  lemma {:induction false} EveryActMoves(sys: System, laws: Laws, dt: real, rigs: seq<Rig>, actions: seq<Action>,
                                         t: real, a: real, d: real, n: nat)
    requires Damped(laws, dt) && IsRun(sys, laws, rigs, actions) && sys.Ready(rigs[0].world)
    requires SteadyDrive(laws, rigs, actions, n, d) && t == Terminal(d) && a == 0.8 * dt
    ensures sys.Ready(rigs[n].world) && forall k: nat | k < n :: MovesAt(sys, rigs, actions, t, a, d, k)
  {
    if n > 0 {
      EveryActMoves(sys, laws, dt, rigs, actions, t, a, d, n - 1);
      ActMoves(sys, laws, dt, rigs, actions, t, a, d, n - 1);
    }
  }

  lemma LeftOn(v: real, v': real, t: real, a: real, first: real, k: nat)
    requires v - t == Left(first, a, k) && Nears(v, v', t, a)
    ensures v' - t == Left(first, a, k + 1)
  {
  }

  lemma {:induction false} GapDecays(sys: System, rigs: seq<Rig>, actions: seq<Action>, t: real, a: real, d: real,
                                     n: nat)
    requires |rigs| == |actions| + 1 && n <= |actions|
    requires forall k: nat | k < n :: MovesAt(sys, rigs, actions, t, a, d, k)
    ensures sys.Velocity(rigs[n]) - t == Left(sys.Velocity(rigs[0]) - t, a, Ticks(actions, n))
  {
    if n > 0 {
      GapDecays(sys, rigs, actions, t, a, d, n - 1);
      assert MovesAt(sys, rigs, actions, t, a, d, n - 1);
      if actions[n - 1].Tick? {
        LeftOn(sys.Velocity(rigs[n - 1]), sys.Velocity(rigs[n]), t, a, sys.Velocity(rigs[0]) - t,
               Ticks(actions, n - 1));
      }
    }
  }

  /** While the drive stays the same, whatever is edited meanwhile, the velocity differs from the terminal one
      by a power of `1 - 0.8 dt`. */
  lemma VelocityClosedForm(sys: System, laws: Laws, dt: real, rigs: seq<Rig>, actions: seq<Action>, d: real, n: nat)
    requires Damped(laws, dt) && IsRun(sys, laws, rigs, actions) && sys.Ready(rigs[0].world)
    requires SteadyDrive(laws, rigs, actions, n, d)
    ensures sys.Velocity(rigs[n]) - Terminal(d)
         == Decayed(sys.Velocity(rigs[0]) - Terminal(d), 0.8 * dt, Ticks(actions, n))
  {
    EveryActMoves(sys, laws, dt, rigs, actions, Terminal(d), 0.8 * dt, d, n);
    GapDecays(sys, rigs, actions, Terminal(d), 0.8 * dt, d, n);
    LeftIsDecayed(sys.Velocity(rigs[0]) - Terminal(d), 0.8 * dt, Ticks(actions, n));
  }

  /** With a step under 2.5 seconds the velocity settles: after an explicit number of ticks it is within `eps`. */
  lemma VelocitySettles(sys: System, laws: Laws, dt: real, rigs: seq<Rig>, actions: seq<Action>, d: real, eps: real,
                        n: nat)
    requires Damped(laws, dt) && IsRun(sys, laws, rigs, actions) && sys.Ready(rigs[0].world)
    requires SteadyDrive(laws, rigs, actions, n, d) && 0.0 < dt < 2.5 && eps > 0.0
    requires Ticks(actions, n) >= StepsTo(Rate(0.8 * dt), Abs(sys.Velocity(rigs[0]) - Terminal(d)), eps)
    ensures Abs(sys.Velocity(rigs[n]) - Terminal(d)) <= eps
  {
    VelocityClosedForm(sys, laws, dt, rigs, actions, d, n);
    DecayedIsSmall(sys.Velocity(rigs[0]) - Terminal(d), 0.8 * dt, eps, Ticks(actions, n));
  }

  /** With any longer step it never comes closer to the terminal velocity than it was. */
  lemma LongStepsNeverSettle(sys: System, laws: Laws, dt: real, rigs: seq<Rig>, actions: seq<Action>, d: real, n: nat)
    requires Damped(laws, dt) && IsRun(sys, laws, rigs, actions) && sys.Ready(rigs[0].world)
    requires SteadyDrive(laws, rigs, actions, n, d) && dt >= 2.5
    ensures Abs(sys.Velocity(rigs[n]) - Terminal(d)) >= Abs(sys.Velocity(rigs[0]) - Terminal(d))
  {
    VelocityClosedForm(sys, laws, dt, rigs, actions, d, n);
    DecayedIsLarge(sys.Velocity(rigs[0]) - Terminal(d), 0.8 * dt, Ticks(actions, n));
  }

  /** `n` times `d`. */
  function Times(n: nat, d: real): real {
    if n == 0 then 0.0 else Times(n - 1, d) + d
  }

  lemma {:induction false} TimesIsProduct(n: nat, d: real)
    ensures Times(n, d) == n as real * d
  {
    if n > 0 {
      TimesIsProduct(n - 1, d);
      Distribute((n - 1) as real, 1.0, d);
    }
  }

  lemma {:induction false} DrivesAddUp(sys: System, rigs: seq<Rig>, actions: seq<Action>, t: real, a: real, d: real,
                                       n: nat)
    requires |rigs| == |actions| + 1 && n <= |actions|
    requires forall k: nat | k < n :: MovesAt(sys, rigs, actions, t, a, d, k)
    ensures Drives(rigs, actions, n) == Times(Ticks(actions, n), d)
  {
    if n > 0 {
      DrivesAddUp(sys, rigs, actions, t, a, d, n - 1);
      assert MovesAt(sys, rigs, actions, t, a, d, n - 1);
    }
  }

  /** Where a motion that set out from `x` with velocity `v` is by the time the velocity is `v'`. */
  function Coasted(dt: real, x: real, v: real, v': real, n: nat, terminal: real): real {
    x + n as real * dt * terminal + (1.25 - dt) * (v - v')
  }

  lemma PositionFromMomentum(dt: real, v0: real, x0: real, v: real, x: real, n: nat, drive: real)
    requires Momentum(dt, v, x) == Momentum(dt, v0, x0) + Impulse(dt, Times(n, drive))
    ensures x == Coasted(dt, x0, v0, v, n, Terminal(drive))
  {
    var t, r := Terminal(drive), n as real;
    TimesIsProduct(n, drive);
    EqualProducts(0.002 * dt, Times(n, drive), r * drive);
    EqualProducts(r * dt, 0.002 * drive, 0.8 * t);
    assert 0.002 * dt * (r * drive) == r * dt * (0.002 * drive);
    assert 0.8 * ((1.25 - dt) * (v0 - v)) == (1.0 - 0.8 * dt) * v0 - (1.0 - 0.8 * dt) * v;
  }

  /** The position coasts along at the terminal velocity, less what the velocity has gained. */
  lemma PositionClosedForm(sys: System, laws: Laws, dt: real, rigs: seq<Rig>, actions: seq<Action>, d: real, n: nat)
    requires Damped(laws, dt) && IsRun(sys, laws, rigs, actions) && sys.Ready(rigs[0].world)
    requires SteadyDrive(laws, rigs, actions, n, d)
    ensures sys.Position(rigs[n]) == Coasted(dt, sys.Position(rigs[0]), sys.Velocity(rigs[0]), sys.Velocity(rigs[n]),
                                             Ticks(actions, n), Terminal(d))
  {
    MomentumBalances(sys, laws, dt, rigs, actions, n);
    EveryActMoves(sys, laws, dt, rigs, actions, Terminal(d), 0.8 * dt, d, n);
    DrivesAddUp(sys, rigs, actions, Terminal(d), 0.8 * dt, d, n);
    PositionFromMomentum(dt, sys.Velocity(rigs[0]), sys.Position(rigs[0]), sys.Velocity(rigs[n]), sys.Position(rigs[n]),
                         Ticks(actions, n), d);
  }
}
