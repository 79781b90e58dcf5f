/** The tank-transfer system as objects: components with fields, a shared bus, and a parameter store whose
    change events reach the inventory. */
module TankTransferSystem {
  import opened Names
  import opened Ordering
  import opened Wiring
  import opened Dataflow
  import opened SimSystemBuilder
  import opened BuilderTheorems
  import opened SignalBus
  import opened ParameterStore
  import opened ParameterDefinitions
  import opened TankModel
  import opened TankWiring
  import opened TankPlant
  import opened TankRig
  import opened Operation

  const SIGNAL_NAMES: set<string> := {
    PRESSURE_COMMAND, SPEED_COMMAND, BLOWER_RUNNING, AIRLOCK_RUNNING, SPEED, RATE_COMMAND,
    SOURCE_WEIGHT, DEST_WEIGHT, RATE, IS_STARVED, IS_FULL, PRESSURE, BLOWER_LOAD}

  lemma FivePuts(m: Bus, a: string, b: string, c: string, d: string, e: string, u: real, v: real, w: real, x: real,
                 y: real)
    ensures m[a := u][b := v][c := w][d := x][e := y] == m + map[a := u, b := v, c := w, d := x, e := y]
  {
  }

  // ---------- Components with a memory ----------

  class AirlockDriveComponent {
    const laws: Laws
    var speedHz: real

    constructor (laws: Laws)
      ensures this.laws == laws && speedHz == 0.0
    {
      this.laws, speedHz := laws, 0.0;
    }

    method Tick(bus: SignalBus)
      requires SIGNAL_NAMES <= bus.signals.Keys
      modifies this, bus
      ensures Effect(Drive(speedHz), map[SPEED := speedHz])
           == AirlockEffect(laws, Drive(old(speedHz)), old(bus.signals))
      ensures bus.signals == old(bus.signals)[SPEED := speedHz]
    {
      var running := Fetch(bus, AIRLOCK_RUNNING);
      var command := Fetch(bus, SPEED_COMMAND);
      speedHz := laws.speed(speedHz, running >= 0.5, command);
      Put(bus, SPEED, speedHz);
    }
  }

  class BlowlinePressureDynamicsComponent {
    const laws: Laws
    var pressurePsi: real

    constructor (laws: Laws)
      ensures this.laws == laws && pressurePsi == 0.0
    {
      this.laws, pressurePsi := laws, 0.0;
    }

    method Tick(bus: SignalBus)
      requires SIGNAL_NAMES <= bus.signals.Keys
      modifies this, bus
      ensures Effect(Line(pressurePsi), map[PRESSURE := pressurePsi])
           == BlowlineEffect(laws, Line(old(pressurePsi)), old(bus.signals))
      ensures bus.signals == old(bus.signals)[PRESSURE := pressurePsi]
    {
      var blower := Fetch(bus, BLOWER_RUNNING);
      var airlock := Fetch(bus, AIRLOCK_RUNNING);
      var speed := Fetch(bus, SPEED);
      var command := Fetch(bus, PRESSURE_COMMAND);
      pressurePsi := laws.pressure(pressurePsi, blower >= 0.5, airlock >= 0.5, speed, command);
      Put(bus, PRESSURE, pressurePsi);
    }
  }

  class TankInventoryComponent {
    const laws: Laws
    var sourceWeightLb: real
    var destWeightLb: real
    var destCapacityLb: real

    function Contents(): TankContents reads this {
      TankContents(sourceWeightLb, destWeightLb, destCapacityLb)
    }

    constructor (laws: Laws, contents: TankContents)
      ensures this.laws == laws && Contents() == contents
    {
      this.laws := laws;
      sourceWeightLb, destWeightLb, destCapacityLb := contents.sourceLb, contents.destLb, contents.capacityLb;
    }

    method Tick(bus: SignalBus)
      requires SIGNAL_NAMES <= bus.signals.Keys
      modifies this, bus
      ensures var e := InventoryEffect(laws, Tanks(old(Contents())), old(bus.signals));
        Tanks(Contents()) == e.memory && bus.signals == old(bus.signals) + e.outputs
    {
      ghost var before := bus.signals;
      var commanded := Fetch(bus, RATE_COMMAND);
      var rate, next := laws.rate(commanded, Contents()), laws.tanks(commanded, Contents());
      sourceWeightLb, destWeightLb, destCapacityLb := next.sourceLb, next.destLb, next.capacityLb;
      Put(bus, SOURCE_WEIGHT, sourceWeightLb);
      Put(bus, DEST_WEIGHT, destWeightLb);
      Put(bus, RATE, rate);
      var starved := Flag(next.sourceLb <= 0.0001);
      var full := Flag(next.capacityLb > 0.0 && next.destLb >= next.capacityLb - 0.0001);
      Put(bus, IS_STARVED, starved);
      Put(bus, IS_FULL, full);
      FivePuts(before, SOURCE_WEIGHT, DEST_WEIGHT, RATE, IS_STARVED, IS_FULL, next.sourceLb, next.destLb, rate,
               starved, full);
    }

    method HandleParameterChanged(e: Change)
      modifies this
      ensures Contents() == EditedContents(old(Contents()), e)
      ensures TakesEffect(old(Contents()), e.name, Max(0.0, e.newValue), Contents())
    {
      if e.name == SOURCE_WEIGHT {
        sourceWeightLb := Max(0.0, e.newValue);
      } else if e.name == DEST_WEIGHT {
        destWeightLb := Max(0.0, e.newValue);
      } else if e.name == DEST_CAPACITY {
        destCapacityLb := Max(0.0, e.newValue);
        if destCapacityLb > 0.0 && destWeightLb > destCapacityLb {
          destWeightLb := destCapacityLb;
        }
      }
    }
  }

  // ---------- Components without one ----------

  method TickCommands(ps: Parameters, bus: SignalBus)
    modifies bus
    ensures bus.signals == old(bus.signals) + CommandOutputs(ps)
  {
    Put(bus, PRESSURE_COMMAND, Read(ps, PRESSURE_COMMAND));
    Put(bus, SPEED_COMMAND, Read(ps, SPEED_COMMAND));
  }

  method TickRunState(ps: Parameters, bus: SignalBus)
    modifies bus
    ensures bus.signals == old(bus.signals) + RunStateOutputs(ps)
  {
    Put(bus, BLOWER_RUNNING, Flag(Read(ps, BLOWER_ENABLE) >= 0.5));
    Put(bus, AIRLOCK_RUNNING, Flag(Read(ps, AIRLOCK_ENABLE) >= 0.5));
  }

  method TickSetpoint(laws: Laws, bus: SignalBus)
    requires SIGNAL_NAMES <= bus.signals.Keys
    modifies bus
    ensures bus.signals == old(bus.signals) + SetpointOutputs(laws, old(bus.signals))
  {
    var airlock := Fetch(bus, AIRLOCK_RUNNING);
    var blower := Fetch(bus, BLOWER_RUNNING);
    var speed := Fetch(bus, SPEED);
    var command := Fetch(bus, PRESSURE_COMMAND);
    Put(bus, RATE_COMMAND, laws.rateCommand(airlock >= 0.5, blower >= 0.5, speed, command));
  }

  method TickMotor(laws: Laws, bus: SignalBus)
    requires SIGNAL_NAMES <= bus.signals.Keys
    modifies bus
    ensures bus.signals == old(bus.signals) + MotorOutputs(laws, old(bus.signals))
  {
    var running := Fetch(bus, BLOWER_RUNNING);
    var pressure := Fetch(bus, PRESSURE);
    var flow := Fetch(bus, RATE);
    Put(bus, BLOWER_LOAD, laws.load(running >= 0.5, pressure, flow));
  }

  // ---------- The memories as a map ----------

  function Memories(x: Plant): map<Component, Memory> {
    Seven(COMMANDS, RUN_STATE, AIRLOCK, SETPOINT, INVENTORY, BLOWLINE, MOTOR,
          Stateless, Drive(x.speedHz), Tanks(x.Contents()), Line(x.pressurePsi))
  }

  /** A map over seven keys, four of them with one value. */
  function Seven<T(==), S>(a: T, b: T, c: T, d: T, e: T, f: T, g: T, u: S, v: S, x: S, y: S): map<T, S> {
    map[a := u, b := u, c := v, d := u, e := x, f := y, g := u]
  }

  lemma SevenUpdates<T, S>(a: T, b: T, c: T, d: T, e: T, f: T, g: T, u: S, v: S, x: S, y: S, z: S)
    requires a != b && a != c && a != d && a != e && a != f && a != g && b != c && b != d && b != e && b != f && b != g
    requires c != d && c != e && c != f && c != g && d != e && d != f && d != g && e != f && e != g && f != g
    ensures var m := Seven(a, b, c, d, e, f, g, u, v, x, y);
      && m[a := u] == m && m[b := u] == m && m[d := u] == m && m[g := u] == m
      && m[c := z] == Seven(a, b, c, d, e, f, g, u, z, x, y)
      && m[e := z] == Seven(a, b, c, d, e, f, g, u, v, z, y)
      && m[f := z] == Seven(a, b, c, d, e, f, g, u, v, x, z)
      && m[a] == u && m[b] == u && m[c] == v && m[d] == u && m[e] == x && m[f] == y && m[g] == u
  {
  }

  lemma IdsDiffer()
    ensures COMMANDS.id == 0 && RUN_STATE.id == 1 && AIRLOCK.id == 2 && SETPOINT.id == 3
    ensures INVENTORY.id == 4 && BLOWLINE.id == 5 && MOTOR.id == 6
  {
  }

  lemma AirlockUpdate(x: Plant, speed: real)
    ensures AIRLOCK.id == 2 && AIRLOCK in Memories(x) && Memories(x)[AIRLOCK] == Drive(x.speedHz)
    ensures Memories(x)[AIRLOCK := Drive(speed)] == Memories(x.(speedHz := speed))
  {
    IdsDiffer();
    SevenUpdates(COMMANDS, RUN_STATE, AIRLOCK, SETPOINT, INVENTORY, BLOWLINE, MOTOR,
                 Stateless, Drive(x.speedHz), Tanks(x.Contents()), Line(x.pressurePsi), Drive(speed));
  }

  lemma InventoryUpdate(x: Plant, t: TankContents)
    ensures INVENTORY.id == 4 && INVENTORY in Memories(x) && Memories(x)[INVENTORY] == Tanks(x.Contents())
    ensures Memories(x)[INVENTORY := Tanks(t)]
         == Memories(x.(sourceLb := t.sourceLb, destLb := t.destLb, capacityLb := t.capacityLb))
  {
    IdsDiffer();
    SevenUpdates(COMMANDS, RUN_STATE, AIRLOCK, SETPOINT, INVENTORY, BLOWLINE, MOTOR,
                 Stateless, Drive(x.speedHz), Tanks(x.Contents()), Line(x.pressurePsi), Tanks(t));
  }

  lemma BlowlineUpdate(x: Plant, pressure: real)
    ensures BLOWLINE.id == 5 && BLOWLINE in Memories(x) && Memories(x)[BLOWLINE] == Line(x.pressurePsi)
    ensures Memories(x)[BLOWLINE := Line(pressure)] == Memories(x.(pressurePsi := pressure))
  {
    IdsDiffer();
    SevenUpdates(COMMANDS, RUN_STATE, AIRLOCK, SETPOINT, INVENTORY, BLOWLINE, MOTOR,
                 Stateless, Drive(x.speedHz), Tanks(x.Contents()), Line(x.pressurePsi), Line(pressure));
  }

  ghost predicate IsStateless(k: nat) { k == 0 || k == 1 || k == 3 || k == 6 }

  lemma StatelessUpdate(x: Plant, k: nat)
    requires IsStateless(k)
    ensures var c := TANK_COMPONENTS[k];
      c in Memories(x) && Memories(x)[c] == Stateless && Memories(x)[c := Stateless] == Memories(x)
  {
    IdsDiffer();
    SevenUpdates(COMMANDS, RUN_STATE, AIRLOCK, SETPOINT, INVENTORY, BLOWLINE, MOTOR,
                 Stateless, Drive(x.speedHz), Tanks(x.Contents()), Line(x.pressurePsi), Stateless);
  }

  function StatelessOutputs(laws: Laws, ps: Parameters, bus: Bus, k: nat): Bus {
    if k == 0 then CommandOutputs(ps) else if k == 1 then RunStateOutputs(ps)
    else if k == 3 then SetpointOutputs(laws, bus) else MotorOutputs(laws, bus)
  }

  lemma StatelessStep(laws: Laws, ps: Parameters, bus: Bus, k: nat)
    requires IsStateless(k)
    ensures TankStep(laws, TANK_COMPONENTS[k], Stateless, ps, bus)
         == Effect(Stateless, StatelessOutputs(laws, ps, bus, k))
  {
    IdsDiffer();
  }

  lemma StatelessTick(laws: Laws, ps: Parameters, bus: Bus, x: Plant, k: nat)
    requires IsStateless(k)
    ensures TANK_COMPONENTS[k] in Memories(x)
    ensures TickOne(TankProgram(laws), ps, World(bus, Memories(x)), TANK_COMPONENTS[k])
         == World(bus + StatelessOutputs(laws, ps, bus, k), Memories(x))
  {
    StatelessUpdate(x, k);
    StatelessStep(laws, ps, bus, k);
  }

  lemma MemoriesHold(x: Plant)
    ensures var m := Memories(x);
      && (forall c <- TANK_COMPONENTS :: c in m)
      && m[COMMANDS] == m[RUN_STATE] == m[SETPOINT] == m[MOTOR] == Stateless
      && m[AIRLOCK] == Drive(x.speedHz) && m[INVENTORY] == Tanks(x.Contents()) && m[BLOWLINE] == Line(x.pressurePsi)
  {
    IdsDiffer();
    SevenUpdates(COMMANDS, RUN_STATE, AIRLOCK, SETPOINT, INVENTORY, BLOWLINE, MOTOR,
                 Stateless, Drive(x.speedHz), Tanks(x.Contents()), Line(x.pressurePsi), Stateless);
  }

  // ---------- The system ----------

  /** The wiring of the constructor: seven Add calls and Build. */
  method Wire() returns (order: seq<Component>)
    ensures order == TANK_COMPONENTS
  {
    var builder := new SimSystemBuilder();
    builder.Add(COMMANDS);
    builder.Add(RUN_STATE);
    builder.Add(AIRLOCK);
    builder.Add(SETPOINT);
    builder.Add(INVENTORY);
    builder.Add(BLOWLINE);
    builder.Add(MOTOR);
    assert builder.components == TANK_COMPONENTS;
    var r := builder.Build();
    TankIsAccepted();
    BuiltIffSortable(TANK_COMPONENTS, r);
    TankOrder(r.value);
    order := r.value;
  }

  function InitialPlant(ps: Parameters): Plant {
    Plant(0.0, Read(ps, SOURCE_WEIGHT), Read(ps, DEST_WEIGHT), Read(ps, DEST_CAPACITY), 0.0)
  }

  const PARAMETER_SIGNALS: set<string> := {SOURCE_WEIGHT, DEST_WEIGHT, PRESSURE_COMMAND, SPEED_COMMAND}

  /** The signals that are parameters too start as these, all others at zero. */
  function InitialSignal(ps: Parameters, n: string): real {
    if n in PARAMETER_SIGNALS then Read(ps, n) else 0.0
  }

  /** The bus as the constructor leaves it. */
  ghost predicate InitialBus(ps: Parameters, bus: Bus) {
    forall n <- SIGNAL_NAMES :: n in bus && bus[n] == InitialSignal(ps, n)
  }

  method DefineParameters(parameters: ParameterStore)
    requires ValidStore(parameters.State())
    modifies parameters
    ensures parameters.State() == DefineAll(old(parameters.State()), TANK_DEFINITIONS)
  {
    TankNamesArePlain();
    DefineEach(parameters, TANK_DEFINITIONS);
  }

  method ZeroSignals(bus: SignalBus)
    modifies bus
    ensures SIGNAL_NAMES - PARAMETER_SIGNALS <= bus.signals.Keys
    ensures forall n <- bus.signals :: n in old(bus.signals) || bus.signals[n] == 0.0
  {
    Put(bus, PRESSURE, 0.0);
    Put(bus, SPEED, 0.0);
    Put(bus, RATE_COMMAND, 0.0);
    Put(bus, RATE, 0.0);
    Put(bus, BLOWER_LOAD, 0.0);
    Put(bus, BLOWER_RUNNING, 0.0);
    Put(bus, AIRLOCK_RUNNING, 0.0);
    Put(bus, IS_STARVED, 0.0);
    Put(bus, IS_FULL, 0.0);
  }

  method ParameterSignals(bus: SignalBus, ps: Parameters)
    modifies bus
    ensures forall n <- PARAMETER_SIGNALS :: n in bus.signals && bus.signals[n] == Read(ps, n)
    ensures forall n <- bus.signals :: n in PARAMETER_SIGNALS || n in old(bus.signals)
    ensures old(bus.signals).Keys <= bus.signals.Keys
    ensures forall n <- old(bus.signals) :: n !in PARAMETER_SIGNALS ==> bus.signals[n] == old(bus.signals)[n]
  {
    Put(bus, SOURCE_WEIGHT, Read(ps, SOURCE_WEIGHT));
    Put(bus, DEST_WEIGHT, Read(ps, DEST_WEIGHT));
    Put(bus, PRESSURE_COMMAND, Read(ps, PRESSURE_COMMAND));
    Put(bus, SPEED_COMMAND, Read(ps, SPEED_COMMAND));
  }

  /** Every signal is on the bus from the start. */
  method InitialSignals(ps: Parameters) returns (bus: SignalBus)
    ensures fresh(bus)
    ensures InitialBus(ps, bus.signals) && SIGNAL_NAMES <= bus.signals.Keys
  {
    bus := new SignalBus();
    ZeroSignals(bus);
    ParameterSignals(bus, ps);
  }

  class TankTransferSystem {
    const laws: Laws
    const parameters: ParameterStore
    const signals: SignalBus
    const airlock: AirlockDriveComponent
    const inventory: TankInventoryComponent
    const blowline: BlowlinePressureDynamicsComponent
    const order: seq<Component>

    ghost predicate Valid() reads this, signals {
      && airlock.laws == inventory.laws == blowline.laws == laws
      && SIGNAL_NAMES <= signals.signals.Keys
      && order == TANK_COMPONENTS
    }

    function State(): Plant reads this, airlock, inventory, blowline {
      Plant(airlock.speedHz, inventory.sourceWeightLb, inventory.destWeightLb, inventory.destCapacityLb,
            blowline.pressurePsi)
    }

    function Everything(): World<Component, Memory> reads this, signals, airlock, inventory, blowline {
      World(signals.signals, Memories(State()))
    }

    constructor (laws: Laws, parameters: ParameterStore)
      requires ValidStore(parameters.State())
      modifies parameters
      ensures Valid() && this.laws == laws && this.parameters == parameters
      ensures fresh(signals) && fresh(airlock) && fresh(inventory) && fresh(blowline)
      ensures parameters.State() == DefineAll(old(parameters.State()), TANK_DEFINITIONS)
      ensures State() == InitialPlant(parameters.values)
      ensures InitialBus(parameters.values, signals.signals)
    {
      DefineParameters(parameters);
      var values := parameters.values;
      this.laws, this.parameters := laws, parameters;
      var bus := InitialSignals(values);
      signals := bus;
      airlock := new AirlockDriveComponent(laws);
      inventory := new TankInventoryComponent(laws, InitialPlant(values).Contents());
      blowline := new BlowlinePressureDynamicsComponent(laws);
      var built := Wire();
      order := built;
    }

    method TickStateless(k: nat)
      requires Valid() && IsStateless(k)
      modifies signals
      ensures Valid() && TANK_COMPONENTS[k] in old(Everything()).memory
      ensures Everything() == TickOne(TankProgram(laws), parameters.values, old(Everything()), TANK_COMPONENTS[k])
    {
      StatelessTick(laws, parameters.values, signals.signals, State(), k);
      if k == 0 {
        TickCommands(parameters.values, signals);
      } else if k == 1 {
        TickRunState(parameters.values, signals);
      } else if k == 3 {
        TickSetpoint(laws, signals);
      } else {
        TickMotor(laws, signals);
      }
    }

    method TickAirlock()
      requires Valid()
      modifies signals, airlock
      ensures Valid() && AIRLOCK in old(Everything()).memory
      ensures Everything() == TickOne(TankProgram(laws), parameters.values, old(Everything()), AIRLOCK)
    {
      ghost var x := State();
      airlock.Tick(signals);
      AirlockUpdate(x, airlock.speedHz);
    }

    method TickInventory()
      requires Valid()
      modifies signals, inventory
      ensures Valid() && INVENTORY in old(Everything()).memory
      ensures Everything() == TickOne(TankProgram(laws), parameters.values, old(Everything()), INVENTORY)
    {
      ghost var x := State();
      inventory.Tick(signals);
      InventoryUpdate(x, inventory.Contents());
    }

    method TickBlowline()
      requires Valid()
      modifies signals, blowline
      ensures Valid() && BLOWLINE in old(Everything()).memory
      ensures Everything() == TickOne(TankProgram(laws), parameters.values, old(Everything()), BLOWLINE)
    {
      ghost var x := State();
      blowline.Tick(signals);
      BlowlineUpdate(x, blowline.pressurePsi);
    }

    /** `component.Tick`, for the component at hand. */
    method TickComponent(k: nat)
      requires Valid() && k < |order|
      modifies signals, airlock, inventory, blowline
      ensures Valid() && order[k] in old(Everything()).memory
      ensures Everything() == TickOne(TankProgram(laws), parameters.values, old(Everything()), order[k])
    {
      if k == 2 {
        TickAirlock();
      } else if k == 4 {
        TickInventory();
      } else if k == 5 {
        TickBlowline();
      } else {
        TickStateless(k);
      }
    }

    /** One tick of the built system, and what it comes to for the plant. */
    method Tick()
      requires Valid()
      modifies signals, airlock, inventory, blowline
      ensures Valid() && Holds(old(Everything()), old(State()))
      ensures Everything() == WorldAfter(laws, parameters.values, old(Everything()), old(State()))
      ensures State() == PlantTick(laws, parameters.values, old(State()))
    {
      ghost var w, ps := Everything(), parameters.values;
      MemoriesHold(State());
      RunComponents();
      TankIsAccepted();
      AddOrderIsKept(Dependencies(TANK_COMPONENTS));
      TickIsPlantTick(laws, ps, w, old(State()), TANK_COMPONENTS);
      SameMemories(State(), PlantTick(laws, ps, old(State())), WorldAfter(laws, ps, w, old(State())).memory);
    }

    /** `SimSystem.Tick`: every component once, in execution order. */
    method RunComponents()
      requires Valid()
      modifies signals, airlock, inventory, blowline
      ensures Valid() && forall c <- order :: c in old(Everything()).memory
      ensures Everything() == TickAll(TankProgram(laws), parameters.values, old(Everything()), order)
    {
      ghost var w, ps := Everything(), parameters.values;
      MemoriesHold(State());
      for k := 0 to |order|
        invariant Valid() && forall c <- order :: c in w.memory
        invariant Everything() == After(TankProgram(laws), ps, w, order, k)
      {
        AfterStep(TankProgram(laws), ps, w, order, k);
        TickComponent(k);
      }
      assert order[..|order|] == order;
    }

    /** A parameter edit, delivered to the inventory if it changed anything. */
    method SetParameter(name: string, value: real) returns (outcome: SetOutcome)
      requires Valid() && ValidStore(parameters.State())
      modifies parameters, inventory
      ensures Valid() && outcome == OutcomeOfSet(old(parameters.State()), Trim(name), value)
      ensures Rig(parameters.State(), State())
           == Act(laws, old(Rig(parameters.State(), State())), Edit(Trim(name), value))
      ensures EditSeen(old(parameters.State()), old(State()), Trim(name), parameters.State(), State())
    {
      ghost var r := Rig(parameters.State(), State());
      outcome := SetAndDeliver(name, value);
      EditIsSeen(laws, r, Trim(name), value);
    }

    method SetAndDeliver(name: string, value: real) returns (outcome: SetOutcome)
      requires ValidStore(parameters.State())
      modifies parameters, inventory
      ensures outcome == OutcomeOfSet(old(parameters.State()), Trim(name), value)
      ensures Rig(parameters.State(), State())
           == Act(laws, old(Rig(parameters.State(), State())), Edit(Trim(name), value))
    {
      ghost var s, x := parameters.State(), State();
      outcome := parameters.Set(name, value);
      Deliver(outcome);
      EditedPlant(laws, s, x, Trim(name), value, State());
    }

    /** `parameters.ParameterChanged`: the event, if there is one, reaches the inventory and nothing else. */
    method Deliver(outcome: SetOutcome)
      modifies inventory
      ensures inventory.Contents() == EventApplied(old(inventory.Contents()), outcome)
      ensures airlock.speedHz == old(airlock.speedHz) && blowline.pressurePsi == old(blowline.pressurePsi)
    {
      if outcome.Changed? {
        inventory.HandleParameterChanged(outcome.event);
      }
    }
  }

  function EventApplied(t: TankContents, outcome: SetOutcome): TankContents {
    if outcome.Changed? then EditedContents(t, outcome.event) else t
  }

  lemma EditedPlant(laws: Laws, s: Store, x: Plant, n: string, value: real, y: Plant)
    requires ValidStore(s) && y.speedHz == x.speedHz && y.pressurePsi == x.pressurePsi
    requires y.Contents() == EventApplied(x.Contents(), OutcomeOfSet(s, n, value))
    ensures Act(laws, Rig(s, x), Edit(n, value)) == Rig(AfterSet(s, n, value), y)
  {
  }

  /** The three memories determine the plant. */
  lemma SameMemories(x: Plant, y: Plant, m: map<Component, Memory>)
    requires m == Memories(x) && AIRLOCK in m && INVENTORY in m && BLOWLINE in m
    requires m[AIRLOCK] == Drive(y.speedHz) && m[INVENTORY] == Tanks(y.Contents()) && m[BLOWLINE] == Line(y.pressurePsi)
    ensures x == y
  {
    MemoriesHold(x);
  }

  // ---------- The constructor ----------

  lemma TankNamesArePlain()
    ensures forall k | 0 <= k < |TANK_DEFINITIONS| :: IsNamedPlainly(TANK_DEFINITIONS[k])
  {
    forall k | 0 <= k < |TANK_DEFINITIONS| ensures IsNamedPlainly(TANK_DEFINITIONS[k]) {
      TankDefinitionsSensible(k);
    }
  }

  lemma TankDefinitionsDiffer()
    ensures forall i, j | 0 <= i < j < 7 :: TANK_DEFINITIONS[i].name != TANK_DEFINITIONS[j].name
  {
    var lengths := [18, 23, 25, 12, 13, 26, 21];
    forall k | 0 <= k < 7 ensures |TANK_DEFINITIONS[k].name| == lengths[k] {
    }
  }

  lemma TankDefinitionsSensible(k: nat)
    requires k < 7
    ensures var d := TANK_DEFINITIONS[k];
      IsNamedPlainly(d) && ValidDefinition(d) && InRange(d, d.defaultValue)
  {
    var d := TANK_DEFINITIONS[k];
    assert IsTrimmed(d.name);
    TrimFixed(d.name);
  }

  /** Over a store in range in which these parameters are new, or hold values that fit their definitions, the
      constructor sets up a rig in good order. */
  lemma NewRigIsGood(s: Store)
    requires StoreInRange(s) && Definable(s, TANK_DEFINITIONS)
    ensures RigInv(Rig(DefineAll(s, TANK_DEFINITIONS), InitialPlant(DefineAll(s, TANK_DEFINITIONS).values)))
  {
    var ds, s' := TANK_DEFINITIONS, DefineAll(s, TANK_DEFINITIONS);
    DefineAllWorks(s, ds);
    forall d | d in ds ensures d.name in s'.definitions && s'.definitions[d.name] == d {
      var i :| 0 <= i < 7 && ds[i] == d;
    }
    StoredRanges(s');
  }

  lemma TankDefinitionsHold(s: Store)
    requires ValidStore(s)
    ensures var ds := TANK_DEFINITIONS;
      forall k | 0 <= k < 7 :: HoldsAs(DefineAll(s, ds), ds[k], HeldUnder(s, ds[k]))
  {
    TankDefinitionsDiffer();
    forall k | 0 <= k < 7 ensures ValidDefinition(TANK_DEFINITIONS[k]) {
      TankDefinitionsSensible(k);
    }
    DefinedParametersHold(s, TANK_DEFINITIONS);
  }

  lemma DefinedHolds(s: Store, k: nat, name: string, default: real)
    requires ValidStore(s) && k < 7 && TANK_DEFINITIONS[k].name == name && TANK_DEFINITIONS[k].defaultValue == default
    ensures Read(DefineAll(s, TANK_DEFINITIONS).values, name) == Held(s, name, default)
  {
    TankDefinitionsHold(s);
    var d := TANK_DEFINITIONS[k];
    assert HoldsAs(DefineAll(s, TANK_DEFINITIONS), d, HeldUnder(s, d));
  }

  /** A new plant is at rest, and its tanks hold what the store has for them, or else the defaults: 20000 and
      5000 lb, with room for 40000. */
  lemma NewPlantHoldsParameters(s: Store)
    requires ValidStore(s)
    ensures var x := InitialPlant(DefineAll(s, TANK_DEFINITIONS).values);
      && x.speedHz == x.pressurePsi == 0.0
      && x.sourceLb == Held(s, SOURCE_WEIGHT, 20000.0) && x.destLb == Held(s, DEST_WEIGHT, 5000.0)
      && x.capacityLb == Held(s, DEST_CAPACITY, 40000.0)
  {
    DefinedHolds(s, 0, SOURCE_WEIGHT, 20000.0);
    DefinedHolds(s, 1, DEST_WEIGHT, 5000.0);
    DefinedHolds(s, 2, DEST_CAPACITY, 40000.0);
  }

  /** And its drives are disabled, with commands of 8 psi and 8 Hz, unless the store says otherwise. */
  lemma NewCommandsHold(s: Store)
    requires ValidStore(s)
    ensures var ps := DefineAll(s, TANK_DEFINITIONS).values;
      && Read(ps, BLOWER_ENABLE) == Held(s, BLOWER_ENABLE, 0.0)
      && Read(ps, AIRLOCK_ENABLE) == Held(s, AIRLOCK_ENABLE, 0.0)
      && Read(ps, PRESSURE_COMMAND) == Held(s, PRESSURE_COMMAND, 8.0)
      && Read(ps, SPEED_COMMAND) == Held(s, SPEED_COMMAND, 8.0)
  {
    DefinedHolds(s, 3, BLOWER_ENABLE, 0.0);
    DefinedHolds(s, 4, AIRLOCK_ENABLE, 0.0);
    DefinedHolds(s, 5, PRESSURE_COMMAND, 8.0);
    DefinedHolds(s, 6, SPEED_COMMAND, 8.0);
  }

  /** A store without any of them will do. */
  lemma NewParametersAreDefinable(s: Store)
    requires forall d <- TANK_DEFINITIONS :: d.name !in s.values
    ensures Definable(s, TANK_DEFINITIONS)
  {
    var ds := TANK_DEFINITIONS;
    TankDefinitionsDiffer();
    forall i | 0 <= i < 7
      ensures ValidDefinition(ds[i]) && InRange(ds[i], ds[i].defaultValue) && ds[i].name !in s.values
    {
      TankDefinitionsSensible(i);
      assert ds[i] in ds;
    }
  }
}
