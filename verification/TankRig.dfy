/** The plant under operation: a parameter store whose change events reach the inventory, and ticks.
    Edits fall between ticks. */
module TankRig {
  import opened SignalBus
  import opened ParameterStore
  import opened ParameterDefinitions
  import opened Dataflow
  import opened Operation
  import opened TankModel
  import opened TankPlant
  import opened TankLaws

  datatype Rig = Rig(store: Store, plant: Plant)

  /** The inventory's event handler: an edited weight or capacity takes effect at once. */
  function EditedContents(t: TankContents, e: Change): TankContents {
    if e.name == SOURCE_WEIGHT then t.(sourceLb := Max(0.0, e.newValue))
    else if e.name == DEST_WEIGHT then t.(destLb := Max(0.0, e.newValue))
    else if e.name == DEST_CAPACITY then
      var capacity := Max(0.0, e.newValue);
      t.(capacityLb := capacity, destLb := if capacity > 0.0 && t.destLb > capacity then capacity else t.destLb)
    else t
  }

  function OnParameterChanged(x: Plant, e: Change): Plant {
    var t := EditedContents(x.Contents(), e);
    x.(sourceLb := t.sourceLb, destLb := t.destLb, capacityLb := t.capacityLb)
  }

  function Act(laws: Laws, r: Rig, a: Action): (r': Rig)
    requires ValidStore(r.store)
    ensures ValidStore(r'.store)
  {
    match a
    case Edit(name, value) =>
      var outcome := OutcomeOfSet(r.store, name, value);
      Rig(AfterSet(r.store, name, value),
          if outcome.Changed? then OnParameterChanged(r.plant, outcome.event) else r.plant)
    case Tick => Rig(r.store, PlantTick(laws, r.store.values, r.plant))
  }

  // ---------- What an edit does ----------

  /** The inventory after `v` has come to be stored under `name`. */
  ghost predicate TakesEffect(t: TankContents, name: string, v: real, u: TankContents) {
    if name == SOURCE_WEIGHT then u.sourceLb == v && u.destLb == t.destLb && u.capacityLb == t.capacityLb
    else if name == DEST_WEIGHT then u.destLb == v && u.sourceLb == t.sourceLb && u.capacityLb == t.capacityLb
    else if name == DEST_CAPACITY then
      && u.capacityLb == v && u.sourceLb == t.sourceLb
      && u.destLb == (if v > 0.0 then Min(t.destLb, v) else t.destLb)
    else u == t
  }

  lemma HandlerTakesEffect(t: TankContents, e: Change)
    ensures TakesEffect(t, e.name, Max(0.0, e.newValue), EditedContents(t, e))
  {
  }

  /** The plant after an edit under a trimmed name, told by what is stored before and after it: a stored weight or
      capacity that has changed is in the tank at once, all else in the plant is as it was. */
  ghost predicate EditSeen(s: Store, x: Plant, name: string, s': Store, y: Plant) {
    && y.speedHz == x.speedHz && y.pressurePsi == x.pressurePsi
    && (s'.values == s.values ==> y == x)
    && (name in s.values && name in s'.values && s'.values[name] != s.values[name] ==>
          TakesEffect(x.Contents(), name, Max(0.0, s'.values[name]), y.Contents()))
  }

  /** That is all that an edit does. */
  lemma EditIsSeen(laws: Laws, r: Rig, name: string, value: real)
    requires ValidStore(r.store)
    ensures var r' := Act(laws, r, Edit(name, value)); EditSeen(r.store, r.plant, name, r'.store, r'.plant)
  {
    var outcome, s' := OutcomeOfSet(r.store, name, value), AfterSet(r.store, name, value);
    if outcome.Changed? {
      assert outcome.event.name == name && outcome.event.newValue == s'.values[name] != r.store.values[name];
      HandlerTakesEffect(r.plant.Contents(), outcome.event);
    }
  }

  // ---------- Runs ----------

  ghost predicate StepAt(laws: Laws, rigs: seq<Rig>, actions: seq<Action>, k: nat)
    requires |rigs| == |actions| + 1
  {
    k < |actions| ==> ValidStore(rigs[k].store) && rigs[k + 1] == Act(laws, rigs[k], actions[k])
  }

  /** The states that a rig goes through under a sequence of edits and ticks. */
  ghost predicate IsRun(laws: Laws, rigs: seq<Rig>, actions: seq<Action>) {
    |rigs| == |actions| + 1 && forall k: nat :: StepAt(laws, rigs, actions, k)
  }

  /** Every rig has a run for every sequence of actions. */
  lemma {:induction false} RunExists(laws: Laws, r: Rig, actions: seq<Action>) returns (rigs: seq<Rig>)
    requires ValidStore(r.store)
    ensures IsRun(laws, rigs, actions) && rigs[0] == r && ValidStore(rigs[|actions|].store)
  {
    if actions == [] {
      rigs := [r];
    } else {
      var n := |actions| - 1;
      var before := RunExists(laws, r, actions[..n]);
      rigs := before + [Act(laws, before[n], actions[n])];
      forall k: nat ensures StepAt(laws, rigs, actions, k) {
        if k < n { assert StepAt(laws, before, actions[..n], k); }
      }
    }
  }

  // ---------- Definitions ----------

  const TANK_DEFINITIONS: seq<Definition> := [
    Bounded(SOURCE_WEIGHT, 20000.0, 0.0, None), Bounded(DEST_WEIGHT, 5000.0, 0.0, None),
    Bounded(DEST_CAPACITY, 40000.0, 0.0, None),
    Bounded(BLOWER_ENABLE, 0.0, 0.0, Some(1.0)), Bounded(AIRLOCK_ENABLE, 0.0, 0.0, Some(1.0)),
    Bounded(PRESSURE_COMMAND, 8.0, 0.0, Some(25.0)), Bounded(SPEED_COMMAND, 8.0, 0.0, Some(30.0))]

  /** The plant's parameters are defined as its constructor defines them, and are in range. */
  ghost predicate TankStore(s: Store) {
    && StoreInRange(s)
    && (forall d <- TANK_DEFINITIONS :: d.name in s.definitions && s.definitions[d.name].min == d.min
                                       && s.definitions[d.name].max == d.max)
  }

  /** The ranges, parameter by parameter. */
  lemma StoredRanges(s: Store)
    requires TankStore(s)
    ensures 0.0 <= Read(s.values, SOURCE_WEIGHT) && 0.0 <= Read(s.values, DEST_WEIGHT)
    ensures DEST_CAPACITY in s.values && 0.0 <= s.values[DEST_CAPACITY]
    ensures 0.0 <= Read(s.values, PRESSURE_COMMAND) <= 25.0
    ensures 0.0 <= Read(s.values, SPEED_COMMAND) <= 30.0
    ensures 0.0 <= Read(s.values, BLOWER_ENABLE) <= 1.0 && 0.0 <= Read(s.values, AIRLOCK_ENABLE) <= 1.0
  {
    assert TANK_DEFINITIONS[0].name == SOURCE_WEIGHT && TANK_DEFINITIONS[1].name == DEST_WEIGHT;
    assert TANK_DEFINITIONS[3].name == BLOWER_ENABLE && TANK_DEFINITIONS[4].name == AIRLOCK_ENABLE;
    assert TANK_DEFINITIONS[2].name == DEST_CAPACITY;
    assert TANK_DEFINITIONS[5].name == PRESSURE_COMMAND && TANK_DEFINITIONS[6].name == SPEED_COMMAND;
    forall k | 0 <= k < 7 ensures TANK_DEFINITIONS[k].name in s.values
      && InRange(TANK_DEFINITIONS[k], s.values[TANK_DEFINITIONS[k].name])
    {
      var d := TANK_DEFINITIONS[k];
      assert d in TANK_DEFINITIONS;
      assert InRange(s.definitions[d.name], s.values[d.name]);
    }
  }

  /** The limits of the plant's parameters; the two weights and the capacity have no upper one. */
  function LimitsOf(name: string): (real, Option<real>) {
    if name == BLOWER_ENABLE || name == AIRLOCK_ENABLE then (0.0, Some(1.0))
    else if name == PRESSURE_COMMAND then (0.0, Some(25.0))
    else if name == SPEED_COMMAND then (0.0, Some(30.0))
    else (0.0, None)
  }

  const PARAMETER_NAMES: seq<string> :=
    [SOURCE_WEIGHT, DEST_WEIGHT, DEST_CAPACITY, BLOWER_ENABLE, AIRLOCK_ENABLE, PRESSURE_COMMAND, SPEED_COMMAND]

  lemma LimitsAreDefined(k: nat)
    requires k < |PARAMETER_NAMES|
    ensures k < |TANK_DEFINITIONS| && TANK_DEFINITIONS[k].name == PARAMETER_NAMES[k]
    ensures var (low, high) := LimitsOf(PARAMETER_NAMES[k]);
      TANK_DEFINITIONS[k].min == Some(low) && TANK_DEFINITIONS[k].max == high
  {
    var lengths := [18, 23, 25, 12, 13, 26, 21];
    assert |PARAMETER_NAMES[k]| == lengths[k];
  }

  /** What a Set of one of them stores: the request, raised to the lower and lowered to the upper limit. */
  lemma EditsSaturate(s: Store, name: string, value: real)
    requires TankStore(s) && name in PARAMETER_NAMES
    ensures name in AfterSet(s, name, value).values
    ensures var (low, high) := LimitsOf(name);
      AfterSet(s, name, value).values[name]
      == if value < low then low else if high.Some? && value > high.value then high.value else value
  {
    var k :| 0 <= k < |PARAMETER_NAMES| && PARAMETER_NAMES[k] == name;
    LimitsAreDefined(k);
    var d := TANK_DEFINITIONS[k];
    assert d in TANK_DEFINITIONS && d.name in s.definitions && d.name in s.values && name != "";
  }

  // ---------- The invariant ----------

  ghost predicate PlantInRange(x: Plant) {
    && 0.0 <= x.speedHz <= 30.0 && 0.0 <= x.pressurePsi <= 25.0
    && 0.0 <= x.sourceLb && 0.0 <= x.destLb && 0.0 <= x.capacityLb
  }

  /** Weights are non-negative, speed and pressure within their scales, and the inventory's capacity is
      the stored parameter. */
  ghost predicate RigInv(r: Rig) {
    && TankStore(r.store) && PlantInRange(r.plant)
    && DEST_CAPACITY in r.store.values && r.plant.capacityLb == r.store.values[DEST_CAPACITY]
  }

  lemma TickKeepsInv(m: SoundMachine, r: Rig)
    requires RigInv(r)
    ensures RigInv(Act(m.laws, r, Tick))
  {
    var ps, x := r.store.values, r.plant;
    StoredRanges(r.store);
    assert Clipped(m.dt, RateCommand(m.laws, ps, x), x.Contents(), ContentsAfter(m.laws, ps, x));
  }

  lemma SetKeepsTankStore(s: Store, name: string, value: real)
    requires TankStore(s)
    ensures TankStore(AfterSet(s, name, value))
  {
    SetKeepsRange(s, name, value);
  }

  lemma HandlerKeepsRange(x: Plant, e: Change)
    requires PlantInRange(x)
    ensures PlantInRange(OnParameterChanged(x, e))
    ensures OnParameterChanged(x, e).capacityLb
         == if e.name == DEST_CAPACITY then Max(0.0, e.newValue) else x.capacityLb
  {
  }

  /** What an event says about the store: the named parameter has changed to the new value, no other has. */
  lemma EventMatchesStore(s: Store, name: string, value: real)
    requires TankStore(s) && OutcomeOfSet(s, name, value).Changed?
    ensures var e, s' := OutcomeOfSet(s, name, value).event, AfterSet(s, name, value);
      && s'.values == s.values[e.name := e.newValue]
      && (e.name == SOURCE_WEIGHT || e.name == DEST_WEIGHT || e.name == DEST_CAPACITY ==> e.newValue >= 0.0)
  {
    var e, s' := OutcomeOfSet(s, name, value).event, AfterSet(s, name, value);
    SetKeepsRange(s, name, value);
    SetKeepsTankStore(s, name, value);
    StoredRanges(s');
    assert e.name in s'.values && s'.values[e.name] == e.newValue;
  }

  lemma EditKeepsInv(laws: Laws, r: Rig, name: string, value: real)
    requires RigInv(r)
    ensures RigInv(Act(laws, r, Edit(name, value)))
  {
    SetKeepsTankStore(r.store, name, value);
    var outcome := OutcomeOfSet(r.store, name, value);
    if outcome.Changed? {
      EventMatchesStore(r.store, name, value);
      HandlerKeepsRange(r.plant, outcome.event);
    } else {
      SetKeepsRange(r.store, name, value);
    }
  }

  /** Every tick and every edit keeps the invariant. */
  lemma ActKeepsInv(m: SoundMachine, r: Rig, a: Action)
    requires RigInv(r)
    ensures RigInv(Act(m.laws, r, a))
  {
    match a
    case Edit(name, value) => EditKeepsInv(m.laws, r, name, value);
    case Tick => TickKeepsInv(m, r);
  }

  /** So every run does, at every one of its states. */
  lemma RunKeepsInv(m: SoundMachine, rigs: seq<Rig>, actions: seq<Action>)
    requires IsRun(m.laws, rigs, actions) && RigInv(rigs[0])
    ensures forall k | 0 <= k < |rigs| :: RigInv(rigs[k])
  {
    var n := 0;
    while n < |actions|
      invariant n <= |actions| && forall k | 0 <= k <= n :: RigInv(rigs[k])
    {
      assert StepAt(m.laws, rigs, actions, n);
      ActKeepsInv(m, rigs[n], actions[n]);
      n := n + 1;
    }
  }

  // ---------- Ledger ----------

  function Total(x: Plant): real { x.sourceLb + x.destLb }

  /** By how much an edit makes the inventory jump, truncation at a new capacity included. */
  function Jump(r: Rig, a: Action): real
    requires ValidStore(r.store)
  {
    if a.Tick? then 0.0 else
      var outcome := OutcomeOfSet(r.store, a.name, a.value);
      if !outcome.Changed? then 0.0
      else if outcome.event.name == SOURCE_WEIGHT then outcome.event.newValue - r.plant.sourceLb
      else if outcome.event.name == DEST_WEIGHT then outcome.event.newValue - r.plant.destLb
      else if outcome.event.name == DEST_CAPACITY && 0.0 < outcome.event.newValue < r.plant.destLb then
        outcome.event.newValue - r.plant.destLb
      else 0.0
  }

  /** The jumps of the first `n` actions of a run. */
  function Jumps(rigs: seq<Rig>, actions: seq<Action>, n: nat): real
    requires n <= |actions| < |rigs| && forall k | 0 <= k < n :: ValidStore(rigs[k].store)
  {
    if n == 0 then 0.0 else Jumps(rigs, actions, n - 1) + Jump(rigs[n - 1], actions[n - 1])
  }

  lemma HandlerJumps(x: Plant, e: Change)
    requires e.name == SOURCE_WEIGHT || e.name == DEST_WEIGHT || e.name == DEST_CAPACITY ==> e.newValue >= 0.0
    ensures Total(OnParameterChanged(x, e)) == Total(x) +
      if e.name == SOURCE_WEIGHT then e.newValue - x.sourceLb
      else if e.name == DEST_WEIGHT then e.newValue - x.destLb
      else if e.name == DEST_CAPACITY && 0.0 < e.newValue < x.destLb then e.newValue - x.destLb
      else 0.0
  {
  }

  lemma ActBalances(m: SoundMachine, r: Rig, a: Action)
    requires RigInv(r)
    ensures Total(Act(m.laws, r, a).plant) == Total(r.plant) + Jump(r, a)
  {
    match a
    case Tick =>
      assert Clipped(m.dt, RateCommand(m.laws, r.store.values, r.plant), r.plant.Contents(),
                     ContentsAfter(m.laws, r.store.values, r.plant));
    case Edit(name, value) =>
      var outcome := OutcomeOfSet(r.store, name, value);
      if outcome.Changed? {
        EventMatchesStore(r.store, name, value);
        HandlerJumps(r.plant, outcome.event);
      }
  }

  ghost predicate BalancesAt(rigs: seq<Rig>, actions: seq<Action>, k: nat)
    requires |rigs| == |actions| + 1
  {
    k < |actions| ==>
      && ValidStore(rigs[k].store)
      && Total(rigs[k + 1].plant) == Total(rigs[k].plant) + Jump(rigs[k], actions[k])
  }

  lemma EveryActBalances(m: SoundMachine, rigs: seq<Rig>, actions: seq<Action>)
    requires IsRun(m.laws, rigs, actions) && RigInv(rigs[0])
    ensures forall k: nat :: BalancesAt(rigs, actions, k)
  {
    RunKeepsInv(m, rigs, actions);
    forall k: nat ensures BalancesAt(rigs, actions, k) {
      if k < |actions| {
        assert StepAt(m.laws, rigs, actions, k);
        ActBalances(m, rigs[k], actions[k]);
      }
    }
  }

  lemma {:induction false} BalancesAddUp(rigs: seq<Rig>, actions: seq<Action>, n: nat)
    requires |rigs| == |actions| + 1 && n <= |actions| && forall k: nat :: BalancesAt(rigs, actions, k)
    ensures forall k | 0 <= k < n :: ValidStore(rigs[k].store)
    ensures Total(rigs[n].plant) == Total(rigs[0].plant) + Jumps(rigs, actions, n)
  {
    if n > 0 {
      BalancesAddUp(rigs, actions, n - 1);
      assert BalancesAt(rigs, actions, n - 1);
    }
  }

  /** Over every run of ticks and edits, the plant's inventory is what it was plus what the edits put in. */
  lemma LedgerBalances(m: SoundMachine, rigs: seq<Rig>, actions: seq<Action>, n: nat)
    requires IsRun(m.laws, rigs, actions) && n <= |actions| && RigInv(rigs[0])
    ensures forall k | 0 <= k < n :: ValidStore(rigs[k].store)
    ensures Total(rigs[n].plant) == Total(rigs[0].plant) + Jumps(rigs, actions, n)
  {
    EveryActBalances(m, rigs, actions);
    BalancesAddUp(rigs, actions, n);
  }

  // ---------- Interlock, rates and load ----------

  /** With either enable below one half the very same tick transfers nothing: no one-tick lag. */
  lemma SameTickInterlock(m: SoundMachine, r: Rig)
    requires RigInv(r)
    requires Read(r.store.values, AIRLOCK_ENABLE) < 0.5 || Read(r.store.values, BLOWER_ENABLE) < 0.5
    ensures TransferRate(m.laws, r.store.values, r.plant) == 0.0
    ensures RateCommand(m.laws, r.store.values, r.plant) == 0.0
    ensures var x := Act(m.laws, r, Tick).plant; x.sourceLb == r.plant.sourceLb && x.destLb == r.plant.destLb
  {
    assert Clipped(m.dt, 0.0, r.plant.Contents(), ContentsAfter(m.laws, r.store.values, r.plant));
  }

  /** Setting a weight to the value already stored does nothing, whatever the tank holds by now. */
  lemma StoredWeightDoesNotRefill(laws: Laws, r: Rig, name: string, value: real)
    requires RigInv(r) && name in r.store.values && Applied(r.store, name, value).0 == r.store.values[name]
    ensures Act(laws, r, Edit(name, value)) == r
  {
    assert r.store.values[name := r.store.values[name]] == r.store.values;
  }
}
