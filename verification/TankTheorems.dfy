/** Laws of whole runs of the tank plant: the interlock on the bus, the closed form of the clipped transfer,
    and the comparison of two runs. */
module TankTheorems {
  import opened Ordering
  import opened Wiring
  import opened Dataflow
  import opened Operation
  import opened ParameterStore
  import opened TankModel
  import opened TankPlant
  import opened TankLaws
  import opened TankRig
  import opened Decay

  // ---------- On the bus ----------

  /** The interlock as an observer of the built system sees it: the tick in which an enable is below one
      half shows a zero rate and the old weights. */
  lemma InterlockOnTheBus(m: SoundMachine, r: Rig, w: World<Component, Memory>, order: seq<Component>)
    requires RigInv(r) && Holds(w, r.plant)
    requires StableOrder(Dependencies(TANK_COMPONENTS), order)
    requires Read(r.store.values, AIRLOCK_ENABLE) < 0.5 || Read(r.store.values, BLOWER_ENABLE) < 0.5
    ensures forall c <- order :: c in w.memory
    ensures var bus := TickAll(TankProgram(m.laws), r.store.values, w, order).bus;
      Read(bus, RATE) == 0.0 && Read(bus, SOURCE_WEIGHT) == r.plant.sourceLb && Read(bus, DEST_WEIGHT) == r.plant.destLb
  {
    var laws, ps, x := m.laws, r.store.values, r.plant;
    TickIsPlantTick(laws, ps, w, x, order);
    SameTickInterlock(m, r);
    var bus := WorldAfter(laws, ps, w, x).bus;
    assert Displays(bus, TickParts(laws, ps, x)[4]);
    RateSeen(TransferRate(laws, ps, x), ContentsAfter(laws, ps, x), bus);
  }

  // ---------- Closed form of the clipped transfer ----------

  /** Ticks, and edits of anything but the two weights and the capacity. */
  predicate LeavesInventory(a: Action) {
    a.Tick? || (a.name != SOURCE_WEIGHT && a.name != DEST_WEIGHT && a.name != DEST_CAPACITY)
  }

  /** The rate commanded in the tick that `a` is, if it is one. */
  function AskedRate(laws: Laws, r: Rig, a: Action): real {
    if a.Tick? then RateCommand(laws, r.store.values, r.plant) else 0.0
  }

  /** The sum of the rates commanded in the first `n` actions of a run. */
  function Commanded(laws: Laws, rigs: seq<Rig>, actions: seq<Action>, n: nat): real
    requires n <= |actions| < |rigs|
  {
    if n == 0 then 0.0 else Commanded(laws, rigs, actions, n - 1) + AskedRate(laws, rigs[n - 1], actions[n - 1])
  }

  /** The same in pounds: each rate for one step. */
  function Asked(m: Machine, rigs: seq<Rig>, actions: seq<Action>, n: nat): real
    requires n <= |actions| < |rigs|
  {
    if n == 0 then 0.0 else Asked(m, rigs, actions, n - 1) + AskedRate(m.laws, rigs[n - 1], actions[n - 1]) * m.dt
  }

  lemma {:induction false} AskedIsCommandedTimesStep(m: Machine, rigs: seq<Rig>, actions: seq<Action>, n: nat)
    requires n <= |actions| < |rigs|
    ensures Asked(m, rigs, actions, n) == Commanded(m.laws, rigs, actions, n) * m.dt
  {
    if n > 0 {
      AskedIsCommandedTimesStep(m, rigs, actions, n - 1);
      Distribute(Commanded(m.laws, rigs, actions, n - 1), AskedRate(m.laws, rigs[n - 1], actions[n - 1]), m.dt);
    }
  }

  /** One clipped step, when `a` has been asked for so far from `d0`, and `m` is asked for now. */
  lemma ClippedStep(a: real, m: real, total: real, d0: real, cap: real, dest: real)
    requires 0.0 <= d0 <= total && a >= d0 && m >= 0.0
    requires dest == Min(a, Min(total, Max(d0, cap)))
    ensures dest + Min(m, Min(total - dest, Max(0.0, cap - dest))) == Min(a + m, Min(total, Max(d0, cap)))
    ensures dest <= total
  {
  }

  lemma QuietEdit(laws: Laws, r: Rig, a: Action)
    requires ValidStore(r.store) && a.Edit? && LeavesInventory(a)
    ensures Act(laws, r, a).plant == r.plant
  {
  }

  lemma TickMoves(m: SoundMachine, r: Rig)
    requires RigInv(r)
    ensures var x, y, more := r.plant, Act(m.laws, r, Tick).plant, AskedRate(m.laws, r, Tick) * m.dt;
      && y.capacityLb == x.capacityLb && Total(y) == Total(x) && more >= 0.0
      && y.destLb == x.destLb + Min(more, Min(Total(x) - x.destLb, Max(0.0, x.capacityLb - x.destLb)))
  {
    assert Clipped(m.dt, RateCommand(m.laws, r.store.values, r.plant), r.plant.Contents(),
                   ContentsAfter(m.laws, r.store.values, r.plant));
  }

  /** The state of a run that started from `x`, when `asked` pounds have been asked for in all. */
  ghost predicate ClosedForm(x: Plant, asked: real, y: Plant) {
    && asked >= 0.0
    && y.destLb == Min(x.destLb + asked, Min(Total(x), Max(x.destLb, x.capacityLb)))
    && y.sourceLb == Total(x) - y.destLb
    && y.capacityLb == x.capacityLb
  }

  /** One clipped step carries the closed form on. */
  lemma ClosedFormStep(x: Plant, asked: real, y: Plant, more: real, z: Plant)
    requires ClosedForm(x, asked, y) && x.sourceLb >= 0.0 && x.destLb >= 0.0 && more >= 0.0
    requires z.capacityLb == y.capacityLb && Total(z) == Total(y)
    requires z.destLb == y.destLb + Min(more, Min(Total(y) - y.destLb, Max(0.0, y.capacityLb - y.destLb)))
    ensures ClosedForm(x, asked + more, z)
  {
    ClippedStep(x.destLb + asked, more, Total(x), x.destLb, x.capacityLb, y.destLb);
  }

  /** `z` follows `y` when `more` is asked for: by a clipped transfer, or with nothing happening at all. */
  ghost predicate Follows(y: Plant, more: real, z: Plant) {
    && more >= 0.0 && z.capacityLb == y.capacityLb && Total(z) == Total(y)
    && z.destLb == y.destLb + Min(more, Min(Total(y) - y.destLb, Max(0.0, y.capacityLb - y.destLb)))
  }

  lemma FollowOn(x: Plant, asked: real, y: Plant, more: real, z: Plant)
    requires ClosedForm(x, asked, y) && x.sourceLb >= 0.0 && x.destLb >= 0.0 && Follows(y, more, z)
    ensures ClosedForm(x, asked + more, z)
  {
    ClosedFormStep(x, asked, y, more, z);
  }

  lemma ActFollows(m: SoundMachine, r: Rig, a: Action)
    requires RigInv(r) && LeavesInventory(a)
    ensures Follows(r.plant, AskedRate(m.laws, r, a) * m.dt, Act(m.laws, r, a).plant)
  {
    if a.Edit? { QuietEdit(m.laws, r, a); } else { TickMoves(m, r); }
  }

  ghost predicate FollowsAt(m: Machine, rigs: seq<Rig>, actions: seq<Action>, k: nat)
    requires k < |actions| < |rigs|
  {
    Follows(rigs[k].plant, AskedRate(m.laws, rigs[k], actions[k]) * m.dt, rigs[k + 1].plant)
  }

  lemma AllActsFollow(m: SoundMachine, rigs: seq<Rig>, actions: seq<Action>)
    requires IsRun(m.laws, rigs, actions) && RigInv(rigs[0])
    requires forall k | 0 <= k < |actions| :: LeavesInventory(actions[k])
    ensures forall k: nat | k < |actions| :: FollowsAt(m, rigs, actions, k)
  {
    RunKeepsInv(m, rigs, actions);
    forall k: nat | k < |actions| ensures FollowsAt(m, rigs, actions, k) {
      assert StepAt(m.laws, rigs, actions, k);
      ActFollows(m, rigs[k], actions[k]);
    }
  }

  ghost predicate ClosedAt(m: Machine, rigs: seq<Rig>, actions: seq<Action>, n: nat)
    requires n <= |actions| < |rigs|
  {
    ClosedForm(rigs[0].plant, Asked(m, rigs, actions, n), rigs[n].plant)
  }

  lemma ClosedNext(m: Machine, rigs: seq<Rig>, actions: seq<Action>, k: nat)
    requires k < |actions| < |rigs| && rigs[0].plant.sourceLb >= 0.0 && rigs[0].plant.destLb >= 0.0
    requires ClosedAt(m, rigs, actions, k) && FollowsAt(m, rigs, actions, k)
    ensures ClosedAt(m, rigs, actions, k + 1)
  {
    FollowOn(rigs[0].plant, Asked(m, rigs, actions, k), rigs[k].plant,
             AskedRate(m.laws, rigs[k], actions[k]) * m.dt, rigs[k + 1].plant);
  }

  lemma {:induction false} FollowingHasClosedForm(m: Machine, rigs: seq<Rig>, actions: seq<Action>, n: nat)
    requires n <= |actions| < |rigs| && rigs[0].plant.sourceLb >= 0.0 && rigs[0].plant.destLb >= 0.0
    requires forall k: nat | k < |actions| :: FollowsAt(m, rigs, actions, k)
    ensures ClosedAt(m, rigs, actions, n)
  {
    if n > 0 {
      FollowingHasClosedForm(m, rigs, actions, n - 1);
      ClosedNext(m, rigs, actions, n - 1);
    }
  }

  /** The destination has received all that was commanded, or all there was, or all that fits, whichever is
      least; the rest is in the source. */
  ghost predicate Transferred(laws: Laws, dt: real, rigs: seq<Rig>, actions: seq<Action>, n: nat)
    requires n <= |actions| < |rigs|
  {
    var x, y := rigs[0].plant, rigs[n].plant;
    && y.destLb == Min(x.destLb + Commanded(laws, rigs, actions, n) * dt, Min(Total(x), Max(x.destLb, x.capacityLb)))
    && y.sourceLb == Total(x) - y.destLb
  }

  /** Tick by tick, the clipped transfer refines one closed form. */
  lemma TransferClosedForm(m: SoundMachine, rigs: seq<Rig>, actions: seq<Action>, n: nat)
    requires IsRun(m.laws, rigs, actions) && n <= |actions| && RigInv(rigs[0])
    requires forall k | 0 <= k < |actions| :: LeavesInventory(actions[k])
    ensures Transferred(m.laws, m.dt, rigs, actions, n)
  {
    AllActsFollow(m, rigs, actions);
    FollowingHasClosedForm(m, rigs, actions, n);
    AskedIsCommandedTimesStep(m, rigs, actions, n);
  }

  // ---------- Comparing two runs ----------

  /** The plant under a sequence of parameter settings, one for each tick. */
  function PlantRun(laws: Laws, x: Plant, settings: seq<Parameters>): Plant {
    if settings == [] then x else
      PlantTick(laws, settings[|settings| - 1], PlantRun(laws, x, settings[..|settings| - 1]))
  }

  /** Equal enables, and commands that are nowhere lower. */
  predicate NoLower(ps: Parameters, qs: Parameters) {
    && (AirlockOn(ps) <==> AirlockOn(qs)) && (BlowerOn(ps) <==> BlowerOn(qs))
    && Read(ps, SPEED_COMMAND) <= Read(qs, SPEED_COMMAND)
    && Read(ps, PRESSURE_COMMAND) <= Read(qs, PRESSURE_COMMAND)
  }

  /** `y` is at least as far along as `x`, with the same material and the same capacity. */
  predicate Ahead(x: Plant, y: Plant) {
    && x.speedHz <= y.speedHz && x.pressurePsi <= y.pressurePsi
    && x.destLb <= y.destLb && x.sourceLb >= y.sourceLb
    && Total(x) == Total(y) && x.capacityLb == y.capacityLb
    && 0.0 <= x.destLb && 0.0 <= y.sourceLb
  }

  lemma ClippedIsMonotone(d: real, e: real, m: real, n: real, total: real, cap: real)
    requires d <= e <= total && 0.0 <= m <= n
    ensures d + Min(m, Min(total - d, Max(0.0, cap - d))) <= e + Min(n, Min(total - e, Max(0.0, cap - e)))
  {
  }

  /** What is left when `m` pounds are asked for. */
  function Take(m: real, t: TankContents): TankContents {
    var moved := Min(m, Min(t.sourceLb, Max(0.0, t.capacityLb - t.destLb)));
    TankContents(t.sourceLb - moved, t.destLb + moved, t.capacityLb)
  }

  lemma MovedIsMonotone(m: real, n: real, t: TankContents, u: TankContents, t': TankContents, u': TankContents)
    requires 0.0 <= m <= n && t' == Take(m, t) && u' == Take(n, u)
    requires t.sourceLb + t.destLb == u.sourceLb + u.destLb && t.capacityLb == u.capacityLb
    requires 0.0 <= t.destLb <= u.destLb && 0.0 <= u.sourceLb
    ensures t'.destLb <= u'.destLb && t'.sourceLb >= u'.sourceLb && 0.0 <= t'.destLb && 0.0 <= u'.sourceLb
    ensures t'.sourceLb + t'.destLb == u'.sourceLb + u'.destLb && t'.capacityLb == u'.capacityLb
  {
    ClippedIsMonotone(t.destLb, u.destLb, m, n, t.sourceLb + t.destLb, t.capacityLb);
  }

  lemma ClippedIsTake(dt: real, rate: real, t: TankContents, u: TankContents)
    requires Clipped(dt, rate, t, u)
    ensures u == Take(rate * dt, t) && rate * dt >= 0.0
  {
  }

  lemma TransferIsMonotone(dt: real, c: real, d: real, t: TankContents, u: TankContents, t': TankContents,
                           u': TankContents)
    requires dt > 0.0 && 0.0 <= c <= d && Clipped(dt, c, t, t') && Clipped(dt, d, u, u')
    requires t.sourceLb + t.destLb == u.sourceLb + u.destLb && t.capacityLb == u.capacityLb
    requires 0.0 <= t.destLb <= u.destLb && 0.0 <= u.sourceLb
    ensures t'.destLb <= u'.destLb && t'.sourceLb >= u'.sourceLb && 0.0 <= t'.destLb && 0.0 <= u'.sourceLb
    ensures t'.sourceLb + t'.destLb == u'.sourceLb + u'.destLb && t'.capacityLb == u'.capacityLb
  {
    Scale(dt, c, d);
    ClippedIsTake(dt, c, t, t');
    ClippedIsTake(dt, d, u, u');
    MovedIsMonotone(c * dt, d * dt, t, u, t', u');
  }

  lemma TickKeepsAhead(m: SoundMachine, ps: Parameters, qs: Parameters, x: Plant, y: Plant)
    requires Monotone(m.laws) && NoLower(ps, qs) && Ahead(x, y)
    ensures SpeedAfter(m.laws, ps, x) <= SpeedAfter(m.laws, qs, y)
    ensures RateCommand(m.laws, ps, x) <= RateCommand(m.laws, qs, y)
    ensures Ahead(PlantTick(m.laws, ps, x), PlantTick(m.laws, qs, y))
  {
    var c, d := RateCommand(m.laws, ps, x), RateCommand(m.laws, qs, y);
    assert SpeedAfter(m.laws, ps, x) <= SpeedAfter(m.laws, qs, y);
    assert Clipped(m.dt, c, x.Contents(), ContentsAfter(m.laws, ps, x));
    assert Clipped(m.dt, d, y.Contents(), ContentsAfter(m.laws, qs, y));
    TransferIsMonotone(m.dt, c, d, x.Contents(), y.Contents(), ContentsAfter(m.laws, ps, x),
                       ContentsAfter(m.laws, qs, y));
  }

  /** Higher commands, tick by tick, never leave the plant behind: at every tick of the two runs the speed,
      the commanded rate, the pressure and the destination are at least as high, the source at most. */
  lemma {:induction false} HigherCommandsStayAhead(m: SoundMachine, x: Plant, ps: seq<Parameters>, qs: seq<Parameters>)
    requires Monotone(m.laws) && |ps| == |qs| && forall i | 0 <= i < |ps| :: NoLower(ps[i], qs[i])
    requires 0.0 <= x.sourceLb && 0.0 <= x.destLb
    ensures Ahead(PlantRun(m.laws, x, ps), PlantRun(m.laws, x, qs))
    ensures |ps| > 0 ==> var n := |ps| - 1;
      RateCommand(m.laws, ps[n], PlantRun(m.laws, x, ps[..n]))
      <= RateCommand(m.laws, qs[n], PlantRun(m.laws, x, qs[..n]))
  {
    if |ps| > 0 {
      var n := |ps| - 1;
      HigherCommandsStayAhead(m, x, ps[..n], qs[..n]);
      TickKeepsAhead(m, ps[n], qs[n], PlantRun(m.laws, x, ps[..n]), PlantRun(m.laws, x, qs[..n]));
    }
  }

  /** The settings in force at the ticks among the first `n` actions of a run. */
  function SettingsOf(rigs: seq<Rig>, actions: seq<Action>, n: nat): seq<Parameters>
    requires n <= |actions| < |rigs|
  {
    if n == 0 then [] else
      SettingsOf(rigs, actions, n - 1) + if actions[n - 1].Tick? then [rigs[n - 1].store.values] else []
  }

  /** A run whose edits leave the inventory alone is the plant under the settings of its ticks. */
  lemma {:induction false} RunBySettings(laws: Laws, rigs: seq<Rig>, actions: seq<Action>, n: nat)
    requires IsRun(laws, rigs, actions) && n <= |actions|
    requires forall k | 0 <= k < |actions| :: LeavesInventory(actions[k])
    ensures rigs[n].plant == PlantRun(laws, rigs[0].plant, SettingsOf(rigs, actions, n))
  {
    if n > 0 {
      RunBySettings(laws, rigs, actions, n - 1);
      assert StepAt(laws, rigs, actions, n - 1);
      if actions[n - 1].Edit? {
        QuietEdit(laws, rigs[n - 1], actions[n - 1]);
        assert SettingsOf(rigs, actions, n) == SettingsOf(rigs, actions, n - 1);
      } else {
        var settings := SettingsOf(rigs, actions, n);
        assert settings[..|settings| - 1] == SettingsOf(rigs, actions, n - 1);
      }
    }
  }

  // ---------- The plant's own formulas ----------

  /** Every run of the plant keeps its ranges, and every tick of one shows a load that is 0 with the blower off
      and in [15, 140) with it on, where the clamp never acts. */
  lemma LoadInRange(ph: Physics, rigs: seq<Rig>, actions: seq<Action>, k: nat)
    requires ValidPhysics(ph) && IsRun(LawsOf(ph), rigs, actions) && RigInv(rigs[0]) && k < |rigs|
    ensures RigInv(rigs[k])
    ensures var ps, x := rigs[k].store.values, rigs[k].plant;
      var load := LoadAfter(LawsOf(ph), ps, x);
      if Read(ps, BLOWER_ENABLE) < 0.5 then load == 0.0
      else
        && 15.0 <= load < 140.0
        && load == RawLoad(ph, PressureAfter(LawsOf(ph), ps, x), TransferRate(LawsOf(ph), ps, x))
  {
    RunKeepsInv(MachineOf(ph), rigs, actions);
    var ps, x := rigs[k].store.values, rigs[k].plant;
    LoadNeedsNoClamp(ph, BlowerOn(ps), PressureAfter(LawsOf(ph), ps, x), TransferRate(LawsOf(ph), ps, x));
  }

  /** The plant's ledger over any run. */
  lemma PlantLedger(ph: Physics, rigs: seq<Rig>, actions: seq<Action>, n: nat)
    requires ValidPhysics(ph) && IsRun(LawsOf(ph), rigs, actions) && RigInv(rigs[0]) && n <= |actions|
    ensures forall k | 0 <= k < n :: ValidStore(rigs[k].store)
    ensures Total(rigs[n].plant) == Total(rigs[0].plant) + Jumps(rigs, actions, n)
  {
    LedgerBalances(MachineOf(ph), rigs, actions, n);
  }

  /** At every tick of any run that finds an enable below one half, the plant's weights stay as they are. */
  lemma PlantInterlock(ph: Physics, rigs: seq<Rig>, actions: seq<Action>, k: nat)
    requires ValidPhysics(ph) && IsRun(LawsOf(ph), rigs, actions) && RigInv(rigs[0]) && k < |actions|
    requires actions[k].Tick?
    requires Read(rigs[k].store.values, AIRLOCK_ENABLE) < 0.5 || Read(rigs[k].store.values, BLOWER_ENABLE) < 0.5
    ensures TransferRate(LawsOf(ph), rigs[k].store.values, rigs[k].plant) == 0.0
    ensures rigs[k + 1].plant.sourceLb == rigs[k].plant.sourceLb && rigs[k + 1].plant.destLb == rigs[k].plant.destLb
  {
    RunKeepsInv(MachineOf(ph), rigs, actions);
    SameTickInterlock(MachineOf(ph), rigs[k]);
    assert StepAt(LawsOf(ph), rigs, actions, k);
  }

  /** The plant's transfer in closed form, over any run whose edits leave the inventory alone. */
  lemma PlantTransfer(ph: Physics, rigs: seq<Rig>, actions: seq<Action>, n: nat)
    requires ValidPhysics(ph) && IsRun(LawsOf(ph), rigs, actions) && n <= |actions| && RigInv(rigs[0])
    requires forall k | 0 <= k < |actions| :: LeavesInventory(actions[k])
    ensures Transferred(LawsOf(ph), ph.dt, rigs, actions, n)
  {
    TransferClosedForm(MachineOf(ph), rigs, actions, n);
  }

  ghost predicate NowhereLower(ps: seq<Parameters>, qs: seq<Parameters>) {
    |ps| == |qs| && forall i | 0 <= i < |ps| :: NoLower(ps[i], qs[i])
  }

  /** A run from `x` to `y` whose edits leave the inventory alone, under the given settings at its ticks. */
  ghost predicate QuietRun(laws: Laws, x: Plant, settings: seq<Parameters>, y: Plant) {
    exists rigs: seq<Rig>, actions: seq<Action>, n: nat ::
      && IsRun(laws, rigs, actions) && n <= |actions| && rigs[0].plant == x && rigs[n].plant == y
      && (forall k | 0 <= k < |actions| :: LeavesInventory(actions[k]))
      && settings == SettingsOf(rigs, actions, n)
  }

  lemma QuietRunEnds(laws: Laws, x: Plant, settings: seq<Parameters>, y: Plant)
    requires QuietRun(laws, x, settings, y)
    ensures y == PlantRun(laws, x, settings)
  {
    var rigs: seq<Rig>, actions: seq<Action>, n: nat :|
      && IsRun(laws, rigs, actions) && n <= |actions| && rigs[0].plant == x && rigs[n].plant == y
      && (forall k | 0 <= k < |actions| :: LeavesInventory(actions[k]))
      && settings == SettingsOf(rigs, actions, n);
    RunBySettings(laws, rigs, actions, n);
  }

  /** Two runs from one state, with edits that leave the inventory alone: if at every tick the one's commands
      are nowhere lower and the enables the same, it is nowhere behind, and neither is the rate commanded at
      the next tick, under any such settings for it. */
  lemma PlantComparison(ph: Physics, x: Plant, ps: seq<Parameters>, qs: seq<Parameters>, y: Plant, z: Plant)
    requires ValidPhysics(ph) && PlantInRange(x) && NowhereLower(ps, qs)
    requires QuietRun(LawsOf(ph), x, ps, y) && QuietRun(LawsOf(ph), x, qs, z)
    ensures Ahead(y, z)
    ensures forall p, q | NoLower(p, q) :: RateCommand(LawsOf(ph), p, y) <= RateCommand(LawsOf(ph), q, z)
  {
    QuietRunEnds(LawsOf(ph), x, ps, y);
    QuietRunEnds(LawsOf(ph), x, qs, z);
    EndsCompare(MonotoneMachineOf(ph), x, ps, qs);
    forall p, q | NoLower(p, q) ensures RateCommand(LawsOf(ph), p, y) <= RateCommand(LawsOf(ph), q, z) {
      NextRatesCompare(MonotoneMachineOf(ph), x, ps, qs, p, q);
    }
  }

  lemma EndsCompare(m: MonotoneMachine, x: Plant, ps: seq<Parameters>, qs: seq<Parameters>)
    requires PlantInRange(x) && NowhereLower(ps, qs)
    ensures Ahead(PlantRun(m.laws, x, ps), PlantRun(m.laws, x, qs))
  {
    HigherCommandsStayAhead(m, x, ps, qs);
  }

  lemma NextRatesCompare(m: MonotoneMachine, x: Plant, ps: seq<Parameters>, qs: seq<Parameters>, p: Parameters,
                         q: Parameters)
    requires PlantInRange(x) && NowhereLower(ps, qs) && NoLower(p, q)
    ensures RateCommand(m.laws, p, PlantRun(m.laws, x, ps)) <= RateCommand(m.laws, q, PlantRun(m.laws, x, qs))
  {
    HigherCommandsStayAhead(m, x, ps + [p], qs + [q]);
    assert (ps + [p])[..|ps|] == ps && (qs + [q])[..|qs|] == qs;
  }
}
