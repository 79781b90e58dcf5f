/** The plant seen as one machine: a tick in closed form, shown to be what the built system does. */
module TankPlant {
  import opened Ordering
  import opened Wiring
  import opened Dataflow
  import opened SimSystem
  import opened TankModel
  import opened TankWiring

  /** All that the plant remembers from tick to tick. */
  datatype Plant = Plant(speedHz: real, sourceLb: real, destLb: real, capacityLb: real, pressurePsi: real) {
    function Contents(): TankContents { TankContents(sourceLb, destLb, capacityLb) }
  }

  predicate BlowerOn(ps: Parameters) { Read(ps, BLOWER_ENABLE) >= 0.5 }

  predicate AirlockOn(ps: Parameters) { Read(ps, AIRLOCK_ENABLE) >= 0.5 }

  function SpeedAfter(laws: Laws, ps: Parameters, x: Plant): real {
    laws.speed(x.speedHz, AirlockOn(ps), Read(ps, SPEED_COMMAND))
  }

  function RateCommand(laws: Laws, ps: Parameters, x: Plant): real {
    laws.rateCommand(AirlockOn(ps), BlowerOn(ps), SpeedAfter(laws, ps, x), Read(ps, PRESSURE_COMMAND))
  }

  function TransferRate(laws: Laws, ps: Parameters, x: Plant): real {
    laws.rate(RateCommand(laws, ps, x), x.Contents())
  }

  function ContentsAfter(laws: Laws, ps: Parameters, x: Plant): TankContents {
    laws.tanks(RateCommand(laws, ps, x), x.Contents())
  }

  function PressureAfter(laws: Laws, ps: Parameters, x: Plant): real {
    laws.pressure(x.pressurePsi, BlowerOn(ps), AirlockOn(ps), SpeedAfter(laws, ps, x), Read(ps, PRESSURE_COMMAND))
  }

  function LoadAfter(laws: Laws, ps: Parameters, x: Plant): real {
    laws.load(BlowerOn(ps), PressureAfter(laws, ps, x), TransferRate(laws, ps, x))
  }

  /** One tick, all seven components at once. */
  function PlantTick(laws: Laws, ps: Parameters, x: Plant): Plant {
    var t := ContentsAfter(laws, ps, x);
    Plant(SpeedAfter(laws, ps, x), t.sourceLb, t.destLb, t.capacityLb, PressureAfter(laws, ps, x))
  }

  /** What each component sets in a tick. */
  function TickParts(laws: Laws, ps: Parameters, x: Plant): seq<Bus> {
    [CommandOutputs(ps), RunStateOutputs(ps), map[SPEED := SpeedAfter(laws, ps, x)],
     map[RATE_COMMAND := RateCommand(laws, ps, x)],
     InventoryOutputs(TransferRate(laws, ps, x), ContentsAfter(laws, ps, x)),
     map[PRESSURE := PressureAfter(laws, ps, x)], map[BLOWER_LOAD := LoadAfter(laws, ps, x)]]
  }

  function Union(parts: seq<Bus>): Bus {
    if parts == [] then map[] else Union(parts[..|parts| - 1]) + parts[|parts| - 1]
  }

  /** The bus entries of a tick: what the seven components set, together. */
  function PlantSignals(laws: Laws, ps: Parameters, x: Plant): Bus {
    Union(TickParts(laws, ps, x))
  }

  /** `part` is on display in `bus`. */
  ghost predicate Displays(bus: Bus, part: Bus) {
    forall n <- part :: n in bus && bus[n] == part[n]
  }

  /** The components' memories hold the plant `x`. */
  ghost predicate Holds(w: World<Component, Memory>, x: Plant) {
    && (forall c <- TANK_COMPONENTS :: c in w.memory)
    && AIRLOCK in w.memory && w.memory[AIRLOCK] == Drive(x.speedHz)
    && INVENTORY in w.memory && w.memory[INVENTORY] == Tanks(x.Contents())
    && BLOWLINE in w.memory && w.memory[BLOWLINE] == Line(x.pressurePsi)
  }

  /** `after` shows everything a tick from `x` sets. */
  ghost predicate ShowsTick(laws: Laws, ps: Parameters, x: Plant, after: Bus) {
    forall k | 0 <= k < 7 :: Displays(after, TickParts(laws, ps, x)[k])
  }

  ghost function WorldAfter(laws: Laws, ps: Parameters, w: World<Component, Memory>,
                            x: Plant): World<Component, Memory> {
    var y := PlantTick(laws, ps, x);
    World(w.bus + PlantSignals(laws, ps, x),
          w.memory[AIRLOCK := Drive(y.speedHz)][INVENTORY := Tanks(y.Contents())][BLOWLINE := Line(y.pressurePsi)])
  }

  // ---------- What each component sees ----------

  lemma CommandsSeen(ps: Parameters, after: Bus)
    requires Displays(after, CommandOutputs(ps))
    ensures Read(after, PRESSURE_COMMAND) == Read(ps, PRESSURE_COMMAND)
    ensures Read(after, SPEED_COMMAND) == Read(ps, SPEED_COMMAND)
  {
    assert PRESSURE_COMMAND in CommandOutputs(ps) && SPEED_COMMAND in CommandOutputs(ps);
  }

  lemma RunStateSeen(ps: Parameters, after: Bus)
    requires Displays(after, RunStateOutputs(ps))
    ensures On(after, BLOWER_RUNNING) <==> BlowerOn(ps)
    ensures On(after, AIRLOCK_RUNNING) <==> AirlockOn(ps)
  {
    assert BLOWER_RUNNING in RunStateOutputs(ps) && AIRLOCK_RUNNING in RunStateOutputs(ps);
  }

  lemma RateSeen(rate: real, t: TankContents, after: Bus)
    requires Displays(after, InventoryOutputs(rate, t))
    ensures Read(after, RATE) == rate
    ensures Read(after, SOURCE_WEIGHT) == t.sourceLb && Read(after, DEST_WEIGHT) == t.destLb
  {
    var o := InventoryOutputs(rate, t);
    assert RATE in o && o[RATE] == rate;
    assert SOURCE_WEIGHT in o && o[SOURCE_WEIGHT] == t.sourceLb;
    assert DEST_WEIGHT in o && o[DEST_WEIGHT] == t.destLb;
  }

  lemma SingleSeen(n: string, v: real, after: Bus)
    requires Displays(after, map[n := v])
    ensures Read(after, n) == v
  {
    assert n in map[n := v];
  }

  /** What the components read off the bus in this tick. */
  ghost predicate Sees(laws: Laws, ps: Parameters, x: Plant, bus: Bus) {
    && Read(bus, PRESSURE_COMMAND) == Read(ps, PRESSURE_COMMAND) && Read(bus, SPEED_COMMAND) == Read(ps, SPEED_COMMAND)
    && (On(bus, BLOWER_RUNNING) <==> BlowerOn(ps)) && (On(bus, AIRLOCK_RUNNING) <==> AirlockOn(ps))
    && Read(bus, SPEED) == SpeedAfter(laws, ps, x) && Read(bus, RATE_COMMAND) == RateCommand(laws, ps, x)
    && Read(bus, RATE) == TransferRate(laws, ps, x) && Read(bus, PRESSURE) == PressureAfter(laws, ps, x)
  }

  lemma ViewReads(before: Bus, after: Bus, own: set<string>)
    ensures forall n :: n !in own ==> Read(View(before, after, own), n) == Read(after, n)
  {
  }

  /** A component whose step, on its view, yields what `w'` shows and remembers. */
  lemma SatisfiedBy(laws: Laws, c: Component, ps: Parameters, w: World<Component, Memory>, w': World<Component, Memory>,
                    e: Effect<Memory>)
    requires c in w.memory && c in w'.memory && w'.memory[c] == e.memory
    requires TankStep(laws, c, w.memory[c], ps, View(w.bus, w'.bus, NamesOf(c.outputs))) == e
    requires Displays(w'.bus, e.outputs) && e.outputs.Keys == NamesOf(c.outputs)
    ensures Satisfies(TankProgram(laws), c, ps, w, w')
  {
    var p := TankProgram(laws);
    assert p.outputs(c) == NamesOf(c.outputs);
    var view := View(w.bus, w'.bus, p.outputs(c));
    assert p.step(c, w.memory[c], ps, view) == TankStep(laws, c, w.memory[c], ps, view);
  }

  lemma CommandsSatisfied(laws: Laws, ps: Parameters, w: World<Component, Memory>, x: Plant,
                          w': World<Component, Memory>)
    requires Sees(laws, ps, x, w'.bus) && Displays(w'.bus, CommandOutputs(ps))
    requires COMMANDS in w.memory && COMMANDS in w'.memory && w'.memory[COMMANDS] == w.memory[COMMANDS]
    ensures Satisfies(TankProgram(laws), COMMANDS, ps, w, w')
  {
    CommandsNames();
    ViewReads(w.bus, w'.bus, NamesOf(COMMANDS.outputs));
    SatisfiedBy(laws, COMMANDS, ps, w, w', Effect(w.memory[COMMANDS], CommandOutputs(ps)));
  }

  lemma RunStateSatisfied(laws: Laws, ps: Parameters, w: World<Component, Memory>, x: Plant,
                          w': World<Component, Memory>)
    requires Sees(laws, ps, x, w'.bus) && Displays(w'.bus, RunStateOutputs(ps))
    requires RUN_STATE in w.memory && RUN_STATE in w'.memory && w'.memory[RUN_STATE] == w.memory[RUN_STATE]
    ensures Satisfies(TankProgram(laws), RUN_STATE, ps, w, w')
  {
    RunStateNames();
    ViewReads(w.bus, w'.bus, NamesOf(RUN_STATE.outputs));
    SatisfiedBy(laws, RUN_STATE, ps, w, w', Effect(w.memory[RUN_STATE], RunStateOutputs(ps)));
  }

  lemma AirlockSatisfied(laws: Laws, ps: Parameters, w: World<Component, Memory>, x: Plant,
                         w': World<Component, Memory>)
    requires Sees(laws, ps, x, w'.bus) && Displays(w'.bus, map[SPEED := SpeedAfter(laws, ps, x)])
    requires AIRLOCK in w.memory && w.memory[AIRLOCK] == Drive(x.speedHz)
    requires AIRLOCK in w'.memory && w'.memory[AIRLOCK] == Drive(SpeedAfter(laws, ps, x))
    ensures Satisfies(TankProgram(laws), AIRLOCK, ps, w, w')
  {
    AirlockNames();
    ViewReads(w.bus, w'.bus, NamesOf(AIRLOCK.outputs));
    SatisfiedBy(laws, AIRLOCK, ps, w, w',
                Effect(Drive(SpeedAfter(laws, ps, x)), map[SPEED := SpeedAfter(laws, ps, x)]));
  }

  lemma SetpointSatisfied(laws: Laws, ps: Parameters, w: World<Component, Memory>, x: Plant,
                          w': World<Component, Memory>)
    requires Sees(laws, ps, x, w'.bus) && Displays(w'.bus, map[RATE_COMMAND := RateCommand(laws, ps, x)])
    requires SETPOINT in w.memory && SETPOINT in w'.memory && w'.memory[SETPOINT] == w.memory[SETPOINT]
    ensures Satisfies(TankProgram(laws), SETPOINT, ps, w, w')
  {
    SetpointNames();
    ViewReads(w.bus, w'.bus, NamesOf(SETPOINT.outputs));
    SatisfiedBy(laws, SETPOINT, ps, w, w', Effect(w.memory[SETPOINT], map[RATE_COMMAND := RateCommand(laws, ps, x)]));
  }

  lemma InventorySteps(laws: Laws, ps: Parameters, x: Plant, view: Bus)
    requires Read(view, RATE_COMMAND) == RateCommand(laws, ps, x)
    ensures TankStep(laws, INVENTORY, Tanks(x.Contents()), ps, view)
         == Effect(Tanks(ContentsAfter(laws, ps, x)),
                   InventoryOutputs(TransferRate(laws, ps, x), ContentsAfter(laws, ps, x)))
  {
  }

  lemma InventoryKeys(rate: real, t: TankContents)
    ensures InventoryOutputs(rate, t).Keys == NamesOf(INVENTORY.outputs)
  {
    InventoryNames();
  }

  lemma InventorySatisfied(laws: Laws, ps: Parameters, w: World<Component, Memory>, x: Plant,
                           w': World<Component, Memory>)
    requires Sees(laws, ps, x, w'.bus)
    requires Displays(w'.bus, InventoryOutputs(TransferRate(laws, ps, x), ContentsAfter(laws, ps, x)))
    requires INVENTORY in w.memory && w.memory[INVENTORY] == Tanks(x.Contents())
    requires INVENTORY in w'.memory && w'.memory[INVENTORY] == Tanks(ContentsAfter(laws, ps, x))
    ensures Satisfies(TankProgram(laws), INVENTORY, ps, w, w')
  {
    var view := View(w.bus, w'.bus, NamesOf(INVENTORY.outputs));
    assert Read(view, RATE_COMMAND) == RateCommand(laws, ps, x) by {
      InventoryNames();
      ViewReads(w.bus, w'.bus, NamesOf(INVENTORY.outputs));
    }
    InventorySteps(laws, ps, x, view);
    InventoryKeys(TransferRate(laws, ps, x), ContentsAfter(laws, ps, x));
    SatisfiedBy(laws, INVENTORY, ps, w, w', TankStep(laws, INVENTORY, Tanks(x.Contents()), ps, view));
  }

  lemma BlowlineSatisfied(laws: Laws, ps: Parameters, w: World<Component, Memory>, x: Plant,
                          w': World<Component, Memory>)
    requires Sees(laws, ps, x, w'.bus) && Displays(w'.bus, map[PRESSURE := PressureAfter(laws, ps, x)])
    requires BLOWLINE in w.memory && w.memory[BLOWLINE] == Line(x.pressurePsi)
    requires BLOWLINE in w'.memory && w'.memory[BLOWLINE] == Line(PressureAfter(laws, ps, x))
    ensures Satisfies(TankProgram(laws), BLOWLINE, ps, w, w')
  {
    BlowlineNames();
    ViewReads(w.bus, w'.bus, NamesOf(BLOWLINE.outputs));
    SatisfiedBy(laws, BLOWLINE, ps, w, w',
                Effect(Line(PressureAfter(laws, ps, x)), map[PRESSURE := PressureAfter(laws, ps, x)]));
  }

  lemma MotorSatisfied(laws: Laws, ps: Parameters, w: World<Component, Memory>, x: Plant, w': World<Component, Memory>)
    requires Sees(laws, ps, x, w'.bus) && Displays(w'.bus, map[BLOWER_LOAD := LoadAfter(laws, ps, x)])
    requires MOTOR in w.memory && MOTOR in w'.memory && w'.memory[MOTOR] == w.memory[MOTOR]
    ensures Satisfies(TankProgram(laws), MOTOR, ps, w, w')
  {
    MotorNames();
    ViewReads(w.bus, w'.bus, NamesOf(MOTOR.outputs));
    SatisfiedBy(laws, MOTOR, ps, w, w', Effect(w.memory[MOTOR], map[BLOWER_LOAD := LoadAfter(laws, ps, x)]));
  }

  lemma TickIsSeen(laws: Laws, ps: Parameters, x: Plant, after: Bus)
    requires ShowsTick(laws, ps, x, after)
    ensures Sees(laws, ps, x, after)
  {
    var parts := TickParts(laws, ps, x);
    assert Displays(after, parts[0]) && Displays(after, parts[1]) && Displays(after, parts[2]);
    assert Displays(after, parts[3]) && Displays(after, parts[4]) && Displays(after, parts[5]);
    CommandsSeen(ps, after);
    RunStateSeen(ps, after);
    SingleSeen(SPEED, SpeedAfter(laws, ps, x), after);
    SingleSeen(RATE_COMMAND, RateCommand(laws, ps, x), after);
    RateSeen(TransferRate(laws, ps, x), ContentsAfter(laws, ps, x), after);
    SingleSeen(PRESSURE, PressureAfter(laws, ps, x), after);
  }

  // ---------- The union of the parts ----------

  ghost predicate DeclaredBy(part: Bus, c: Component) {
    forall n <- part :: n in NamesOf(c.outputs)
  }

  lemma ParameterParts(ps: Parameters)
    ensures DeclaredBy(CommandOutputs(ps), COMMANDS) && DeclaredBy(RunStateOutputs(ps), RUN_STATE)
  {
    CommandsNames();
    RunStateNames();
  }

  lemma FirstSingleParts(speed: real, rate: real)
    ensures DeclaredBy(map[SPEED := speed], AIRLOCK) && DeclaredBy(map[RATE_COMMAND := rate], SETPOINT)
  {
    AirlockNames();
    SetpointNames();
  }

  lemma LastSingleParts(pressure: real, load: real)
    ensures DeclaredBy(map[PRESSURE := pressure], BLOWLINE) && DeclaredBy(map[BLOWER_LOAD := load], MOTOR)
  {
    BlowlineNames();
    MotorNames();
  }

  lemma ByIndex(parts: seq<Bus>, comps: seq<Component>, k: nat)
    requires |parts| == |comps| == 7 && k < 7
    requires DeclaredBy(parts[0], comps[0]) && DeclaredBy(parts[1], comps[1]) && DeclaredBy(parts[2], comps[2])
    requires DeclaredBy(parts[3], comps[3]) && DeclaredBy(parts[4], comps[4]) && DeclaredBy(parts[5], comps[5])
    requires DeclaredBy(parts[6], comps[6])
    ensures DeclaredBy(parts[k], comps[k])
  {
  }

  /** Each component sets only what it declares. */
  lemma PartKeys(laws: Laws, ps: Parameters, x: Plant, k: nat)
    requires k < 7
    ensures DeclaredBy(TickParts(laws, ps, x)[k], TANK_COMPONENTS[k])
  {
    var speed, rateCommand := SpeedAfter(laws, ps, x), RateCommand(laws, ps, x);
    var pressure, load := PressureAfter(laws, ps, x), LoadAfter(laws, ps, x);
    ParameterParts(ps);
    FirstSingleParts(speed, rateCommand);
    InventoryPart(TransferRate(laws, ps, x), ContentsAfter(laws, ps, x));
    LastSingleParts(pressure, load);
    ByIndex(TickParts(laws, ps, x), TANK_COMPONENTS, k);
  }

  lemma InventoryPart(rate: real, t: TankContents)
    ensures DeclaredBy(InventoryOutputs(rate, t), INVENTORY)
  {
    InventoryKeys(rate, t);
  }

  lemma {:induction false} UnionShows(parts: seq<Bus>)
    requires forall k | 0 <= k < |parts| :: forall n <- parts[k] :: WriterOf(n) == k
    ensures forall k | 0 <= k < |parts| :: Displays(Union(parts), parts[k])
    ensures forall n <- Union(parts) :: exists k :: 0 <= k < |parts| && n in parts[k]
  {
    if parts != [] {
      var init, last := parts[..|parts| - 1], parts[|parts| - 1];
      UnionShows(init);
      forall k | 0 <= k < |init| ensures Displays(Union(parts), parts[k]) {
        assert init[k] == parts[k] && Displays(Union(init), init[k]);
      }
      forall n | n in Union(parts) ensures exists k :: 0 <= k < |parts| && n in parts[k] {
        if n in last {
          assert n in parts[|parts| - 1];
        } else {
          var k :| 0 <= k < |init| && n in init[k];
          assert n in parts[k];
        }
      }
    }
  }

  lemma PartsAreSeparate(laws: Laws, ps: Parameters, x: Plant)
    ensures forall k | 0 <= k < 7 :: forall n <- TickParts(laws, ps, x)[k] :: WriterOf(n) == k
  {
    forall k | 0 <= k < 7 ensures forall n <- TickParts(laws, ps, x)[k] :: WriterOf(n) == k {
      PartKeys(laws, ps, x, k);
      DeclarationsOf(k);
      forall n | n in TickParts(laws, ps, x)[k] ensures WriterOf(n) == k {
        assert n in NamesOf(TANK_COMPONENTS[k].outputs);
      }
    }
  }

  lemma SignalsShown(laws: Laws, ps: Parameters, bus: Bus, x: Plant)
    ensures ShowsTick(laws, ps, x, bus + PlantSignals(laws, ps, x))
  {
    var parts := TickParts(laws, ps, x);
    PartsAreSeparate(laws, ps, x);
    UnionShows(parts);
    forall k | 0 <= k < 7 ensures Displays(bus + Union(parts), parts[k]) {
      assert Displays(Union(parts), parts[k]);
    }
  }

  // ---------- The built system's tick ----------

  /** The memories after the tick: three components have one, the others keep what they had. */
  ghost predicate Remembers(laws: Laws, ps: Parameters, x: Plant, before: map<Component, Memory>,
                            after: map<Component, Memory>) {
    && after.Keys == before.Keys
    && AIRLOCK in after && after[AIRLOCK] == Drive(SpeedAfter(laws, ps, x))
    && INVENTORY in after && after[INVENTORY] == Tanks(ContentsAfter(laws, ps, x))
    && BLOWLINE in after && after[BLOWLINE] == Line(PressureAfter(laws, ps, x))
    && forall c <- after :: c != AIRLOCK && c != INVENTORY && c != BLOWLINE ==> after[c] == before[c]
  }

  lemma ThreeUpdates<T, S>(m: map<T, S>, a: T, b: T, c: T, x: S, y: S, z: S)
    requires a != b && a != c && b != c && a in m && b in m && c in m
    ensures var n := m[a := x][b := y][c := z];
      && n.Keys == m.Keys && n[a] == x && n[b] == y && n[c] == z
      && forall d <- n :: d != a && d != b && d != c ==> n[d] == m[d]
  {
  }

  lemma MemoryAfter(laws: Laws, ps: Parameters, w: World<Component, Memory>, x: Plant)
    requires Holds(w, x)
    ensures Remembers(laws, ps, x, w.memory, WorldAfter(laws, ps, w, x).memory)
  {
    assert AIRLOCK.id == 2 && INVENTORY.id == 4 && BLOWLINE.id == 5;
    var y := PlantTick(laws, ps, x);
    assert y.Contents() == ContentsAfter(laws, ps, x);
    ThreeUpdates(w.memory, AIRLOCK, INVENTORY, BLOWLINE, Drive(y.speedHz), Tanks(y.Contents()), Line(y.pressurePsi));
  }

  lemma EachSatisfied(laws: Laws, ps: Parameters, w: World<Component, Memory>, x: Plant, w': World<Component, Memory>,
                      k: nat)
    requires Holds(w, x) && k < 7 && TANK_COMPONENTS[k] in w.memory
    requires Remembers(laws, ps, x, w.memory, w'.memory)
    requires Sees(laws, ps, x, w'.bus) && Displays(w'.bus, TickParts(laws, ps, x)[k])
    ensures Satisfies(TankProgram(laws), TANK_COMPONENTS[k], ps, w, w')
  {
    assert AIRLOCK.id == 2 && INVENTORY.id == 4 && BLOWLINE.id == 5;
    if k == 0 { CommandsSatisfied(laws, ps, w, x, w'); }
    else if k == 1 { RunStateSatisfied(laws, ps, w, x, w'); }
    else if k == 2 { AirlockSatisfied(laws, ps, w, x, w'); }
    else if k == 3 { SetpointSatisfied(laws, ps, w, x, w'); }
    else if k == 4 { InventorySatisfied(laws, ps, w, x, w'); }
    else if k == 5 { BlowlineSatisfied(laws, ps, w, x, w'); }
    else { MotorSatisfied(laws, ps, w, x, w'); }
  }

  lemma AllSatisfied(laws: Laws, ps: Parameters, w: World<Component, Memory>, x: Plant)
    requires Holds(w, x)
    ensures forall c <- SetOf(TANK_COMPONENTS) :: c in w.memory
    ensures forall c <- SetOf(TANK_COMPONENTS) :: Satisfies(TankProgram(laws), c, ps, w, WorldAfter(laws, ps, w, x))
  {
    var w' := WorldAfter(laws, ps, w, x);
    MemoryAfter(laws, ps, w, x);
    SignalsShown(laws, ps, w.bus, x);
    TickIsSeen(laws, ps, x, w'.bus);
    forall c | c in SetOf(TANK_COMPONENTS) ensures c in w.memory && Satisfies(TankProgram(laws), c, ps, w, w') {
      var k :| 0 <= k < 7 && TANK_COMPONENTS[k] == c;
      assert Displays(w'.bus, TickParts(laws, ps, x)[k]);
      EachSatisfied(laws, ps, w, x, w', k);
    }
  }

  lemma TickSolvesPlant(laws: Laws, ps: Parameters, w: World<Component, Memory>, x: Plant)
    requires Holds(w, x)
    ensures forall c <- SetOf(TANK_COMPONENTS) :: c in w.memory
    ensures Solves(TankProgram(laws), SetOf(TANK_COMPONENTS), ps, w, WorldAfter(laws, ps, w, x))
  {
    MemoryAfter(laws, ps, w, x);
    AllSatisfied(laws, ps, w, x);
    assert {AIRLOCK, INVENTORY, BLOWLINE} <= SetOf(TANK_COMPONENTS) by {
      assert TANK_COMPONENTS[2] == AIRLOCK && TANK_COMPONENTS[4] == INVENTORY && TANK_COMPONENTS[5] == BLOWLINE;
    }
    ChangesNoOtherSignal(laws, ps, w, x);
  }

  lemma ShownIsWritten(laws: Laws, ps: Parameters, x: Plant, n: string)
    requires n in PlantSignals(laws, ps, x)
    ensures Written(TankProgram(laws), SetOf(TANK_COMPONENTS), n)
  {
    PartsAreSeparate(laws, ps, x);
    UnionShows(TickParts(laws, ps, x));
    var k :| 0 <= k < 7 && n in TickParts(laws, ps, x)[k];
    PartKeys(laws, ps, x, k);
    assert TANK_COMPONENTS[k] in SetOf(TANK_COMPONENTS) && n in TankProgram(laws).outputs(TANK_COMPONENTS[k]);
  }

  lemma ChangesNoOtherSignal(laws: Laws, ps: Parameters, w: World<Component, Memory>, x: Plant)
    ensures forall n :: !Written(TankProgram(laws), SetOf(TANK_COMPONENTS), n) ==>
      SameAt(n, WorldAfter(laws, ps, w, x).bus, w.bus)
  {
    forall n | n in PlantSignals(laws, ps, x) ensures Written(TankProgram(laws), SetOf(TANK_COMPONENTS), n) {
      ShownIsWritten(laws, ps, x, n);
    }
  }

  /** The tick of the built system is the plant's tick, in whatever order `Build` put the components. */
  lemma TickIsPlantTick(laws: Laws, ps: Parameters, w: World<Component, Memory>, x: Plant, order: seq<Component>)
    requires Holds(w, x) && StableOrder(Dependencies(TANK_COMPONENTS), order)
    ensures forall c <- order :: c in w.memory
    ensures TickAll(TankProgram(laws), ps, w, order) == WorldAfter(laws, ps, w, x)
    ensures Holds(WorldAfter(laws, ps, w, x), PlantTick(laws, ps, x))
    ensures ShowsTick(laws, ps, x, WorldAfter(laws, ps, w, x).bus)
  {
    TankIsAccepted();
    AllHonest(laws);
    TickSolvesPlant(laws, ps, w, x);
    BuiltTickIsTheSolution(TankProgram(laws), TANK_COMPONENTS, ps, w, order, WorldAfter(laws, ps, w, x));
    SignalsShown(laws, ps, w.bus, x);
    MemoryAfter(laws, ps, w, x);
  }
}
