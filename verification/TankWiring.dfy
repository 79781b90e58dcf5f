/** The tank plant's wiring: the builder accepts it, keeps the add order, and its components are honest. */
module TankWiring {
  import opened Names
  import opened Ordering
  import opened Wiring
  import opened Dataflow
  import opened SimSystem
  import opened BuilderTheorems
  import opened TankModel

  lemma CommandsNames()
    ensures NamesOf(COMMANDS.inputs) == {}
    ensures NamesOf(COMMANDS.outputs) == {PRESSURE_COMMAND, SPEED_COMMAND}
  {
    assert COMMANDS.outputs[0].name == PRESSURE_COMMAND;
    assert COMMANDS.outputs[1].name == SPEED_COMMAND;
  }

  lemma RunStateNames()
    ensures NamesOf(RUN_STATE.inputs) == {}
    ensures NamesOf(RUN_STATE.outputs) == {BLOWER_RUNNING, AIRLOCK_RUNNING}
  {
    assert RUN_STATE.outputs[0].name == BLOWER_RUNNING;
    assert RUN_STATE.outputs[1].name == AIRLOCK_RUNNING;
  }

  lemma AirlockNames()
    ensures NamesOf(AIRLOCK.inputs) == {SPEED_COMMAND, AIRLOCK_RUNNING}
    ensures NamesOf(AIRLOCK.outputs) == {SPEED}
  {
    assert AIRLOCK.inputs[0].name == SPEED_COMMAND;
    assert AIRLOCK.inputs[1].name == AIRLOCK_RUNNING;
    assert AIRLOCK.outputs[0].name == SPEED;
  }

  lemma SetpointNames()
    ensures NamesOf(SETPOINT.inputs) == {SPEED, PRESSURE_COMMAND, AIRLOCK_RUNNING, BLOWER_RUNNING}
    ensures NamesOf(SETPOINT.outputs) == {RATE_COMMAND}
  {
    assert SETPOINT.inputs[0].name == SPEED;
    assert SETPOINT.inputs[1].name == PRESSURE_COMMAND;
    assert SETPOINT.inputs[2].name == AIRLOCK_RUNNING;
    assert SETPOINT.inputs[3].name == BLOWER_RUNNING;
    assert SETPOINT.outputs[0].name == RATE_COMMAND;
  }

  lemma InventoryNames()
    ensures NamesOf(INVENTORY.inputs) == {RATE_COMMAND}
    ensures NamesOf(INVENTORY.outputs) == {SOURCE_WEIGHT, DEST_WEIGHT, RATE, IS_STARVED, IS_FULL}
  {
    assert INVENTORY.inputs[0].name == RATE_COMMAND;
    assert INVENTORY.outputs[0].name == SOURCE_WEIGHT;
    assert INVENTORY.outputs[1].name == DEST_WEIGHT;
    assert INVENTORY.outputs[2].name == RATE;
    assert INVENTORY.outputs[3].name == IS_STARVED;
    assert INVENTORY.outputs[4].name == IS_FULL;
  }

  lemma BlowlineNames()
    ensures NamesOf(BLOWLINE.inputs) == {PRESSURE_COMMAND, RATE, SPEED, AIRLOCK_RUNNING, BLOWER_RUNNING}
    ensures NamesOf(BLOWLINE.outputs) == {PRESSURE}
  {
    assert BLOWLINE.inputs[0].name == PRESSURE_COMMAND;
    assert BLOWLINE.inputs[1].name == RATE;
    assert BLOWLINE.inputs[2].name == SPEED;
    assert BLOWLINE.inputs[3].name == AIRLOCK_RUNNING;
    assert BLOWLINE.inputs[4].name == BLOWER_RUNNING;
    assert BLOWLINE.outputs[0].name == PRESSURE;
  }

  lemma MotorNames()
    ensures NamesOf(MOTOR.inputs) == {PRESSURE, RATE, BLOWER_RUNNING}
    ensures NamesOf(MOTOR.outputs) == {BLOWER_LOAD}
  {
    assert MOTOR.inputs[0].name == PRESSURE;
    assert MOTOR.inputs[1].name == RATE;
    assert MOTOR.inputs[2].name == BLOWER_RUNNING;
    assert MOTOR.outputs[0].name == BLOWER_LOAD;
  }

  lemma NamesAreClean(n: string)
    requires n in {PRESSURE_COMMAND, SPEED_COMMAND, BLOWER_RUNNING, AIRLOCK_RUNNING, SPEED, RATE_COMMAND,
      SOURCE_WEIGHT, DEST_WEIGHT, RATE, IS_STARVED, IS_FULL, PRESSURE, BLOWER_LOAD}
    ensures !IsBlank(n)
  {
    assert !IsWhite(n[0]);
  }

  lemma CommandsClean()
    ensures CleanAlone(COMMANDS)
  {
    CommandsNames();
    forall d | d in COMMANDS.outputs ensures !IsBlank(d.name) { NamesAreClean(d.name); }
  }

  lemma RunStateClean()
    ensures CleanAlone(RUN_STATE)
  {
    RunStateNames();
    forall d | d in RUN_STATE.outputs ensures !IsBlank(d.name) { NamesAreClean(d.name); }
  }

  lemma AirlockClean()
    ensures CleanAlone(AIRLOCK)
  {
    AirlockNames();
    forall d | d in AIRLOCK.outputs ensures !IsBlank(d.name) { NamesAreClean(d.name); }
  }

  lemma SetpointClean()
    ensures CleanAlone(SETPOINT)
  {
    SetpointNames();
    forall d | d in SETPOINT.outputs ensures !IsBlank(d.name) { NamesAreClean(d.name); }
  }

  lemma InventoryNamesDiffer()
    ensures forall i, j | 0 <= i < j < |INVENTORY.outputs| :: INVENTORY.outputs[i].name != INVENTORY.outputs[j].name
  {
    DifferentLengths(INVENTORY.outputs, [18, 23, 20, 9, 6]);
  }

  lemma InventoryClean()
    ensures CleanAlone(INVENTORY)
  {
    InventoryNames();
    InventoryNamesDiffer();
    forall d | d in INVENTORY.outputs ensures !IsBlank(d.name) { NamesAreClean(d.name); }
  }

  lemma DifferentLengths(ds: seq<SignalDependency>, lengths: seq<nat>)
    requires |lengths| == |ds| && forall k | 0 <= k < |ds| :: |ds[k].name| == lengths[k]
    requires Distinct(lengths)
    ensures forall i, j | 0 <= i < j < |ds| :: ds[i].name != ds[j].name
  {
  }

  lemma BlowlineClean()
    ensures CleanAlone(BLOWLINE)
  {
    BlowlineNames();
    forall d | d in BLOWLINE.outputs ensures !IsBlank(d.name) { NamesAreClean(d.name); }
  }

  lemma MotorClean()
    ensures CleanAlone(MOTOR)
  {
    MotorNames();
    forall d | d in MOTOR.outputs ensures !IsBlank(d.name) { NamesAreClean(d.name); }
  }

  /** Honesty, spelled out for a component of this plant. */
  lemma HonestByParts(laws: Laws, c: Component)
    requires forall m, ps, bus :: TankStep(laws, c, m, ps, bus).outputs.Keys <= NamesOf(c.outputs)
    requires forall m, ps, a, b :: Agree(a, b, NamesOf(c.inputs)) ==>
      TankStep(laws, c, m, ps, a) == TankStep(laws, c, m, ps, b)
    ensures Honest(TankProgram(laws), c)
  {
    var p := TankProgram(laws);
    assert p.inputs(c) == NamesOf(c.inputs) && p.outputs(c) == NamesOf(c.outputs);
    forall m, ps, bus ensures p.step(c, m, ps, bus) == TankStep(laws, c, m, ps, bus) {}
  }

  lemma CommandsHonest(laws: Laws)
    ensures Honest(TankProgram(laws), COMMANDS)
  {
    CommandsNames();
    forall m: Memory, ps, a, b | Agree(a, b, NamesOf(COMMANDS.inputs))
      ensures TankStep(laws, COMMANDS, m, ps, a) == TankStep(laws, COMMANDS, m, ps, b)
    {
      ReadsAgree(a, b, NamesOf(COMMANDS.inputs));
    }
    HonestByParts(laws, COMMANDS);
  }

  lemma RunStateHonest(laws: Laws)
    ensures Honest(TankProgram(laws), RUN_STATE)
  {
    RunStateNames();
    forall m: Memory, ps, a, b | Agree(a, b, NamesOf(RUN_STATE.inputs))
      ensures TankStep(laws, RUN_STATE, m, ps, a) == TankStep(laws, RUN_STATE, m, ps, b)
    {
      ReadsAgree(a, b, NamesOf(RUN_STATE.inputs));
    }
    HonestByParts(laws, RUN_STATE);
  }

  lemma AirlockHonest(laws: Laws)
    ensures Honest(TankProgram(laws), AIRLOCK)
  {
    AirlockNames();
    forall m: Memory, ps, a, b | Agree(a, b, NamesOf(AIRLOCK.inputs))
      ensures TankStep(laws, AIRLOCK, m, ps, a) == TankStep(laws, AIRLOCK, m, ps, b)
    {
      ReadsAgree(a, b, NamesOf(AIRLOCK.inputs));
    }
    HonestByParts(laws, AIRLOCK);
  }

  lemma SetpointHonest(laws: Laws)
    ensures Honest(TankProgram(laws), SETPOINT)
  {
    SetpointNames();
    forall m: Memory, ps, a, b | Agree(a, b, NamesOf(SETPOINT.inputs))
      ensures TankStep(laws, SETPOINT, m, ps, a) == TankStep(laws, SETPOINT, m, ps, b)
    {
      ReadsAgree(a, b, NamesOf(SETPOINT.inputs));
    }
    HonestByParts(laws, SETPOINT);
  }

  lemma InventoryHonest(laws: Laws)
    ensures Honest(TankProgram(laws), INVENTORY)
  {
    InventoryNames();
    forall m: Memory, ps, a, b | Agree(a, b, NamesOf(INVENTORY.inputs))
      ensures TankStep(laws, INVENTORY, m, ps, a) == TankStep(laws, INVENTORY, m, ps, b)
    {
      ReadsAgree(a, b, NamesOf(INVENTORY.inputs));
    }
    HonestByParts(laws, INVENTORY);
  }

  lemma BlowlineHonest(laws: Laws)
    ensures Honest(TankProgram(laws), BLOWLINE)
  {
    BlowlineNames();
    forall m: Memory, ps, a, b | Agree(a, b, NamesOf(BLOWLINE.inputs))
      ensures TankStep(laws, BLOWLINE, m, ps, a) == TankStep(laws, BLOWLINE, m, ps, b)
    {
      ReadsAgree(a, b, NamesOf(BLOWLINE.inputs));
    }
    HonestByParts(laws, BLOWLINE);
  }

  lemma MotorHonest(laws: Laws)
    ensures Honest(TankProgram(laws), MOTOR)
  {
    MotorNames();
    forall m: Memory, ps, a, b | Agree(a, b, NamesOf(MOTOR.inputs))
      ensures TankStep(laws, MOTOR, m, ps, a) == TankStep(laws, MOTOR, m, ps, b)
    {
      ReadsAgree(a, b, NamesOf(MOTOR.inputs));
    }
    HonestByParts(laws, MOTOR);
  }

  lemma AllHonest(laws: Laws)
    ensures Declared(TankProgram(laws))
    ensures forall c <- TANK_COMPONENTS :: Honest(TankProgram(laws), c)
  {
    CommandsHonest(laws);
    RunStateHonest(laws);
    AirlockHonest(laws);
    SetpointHonest(laws);
    InventoryHonest(laws);
    BlowlineHonest(laws);
    MotorHonest(laws);
    forall c | c in TANK_COMPONENTS ensures Honest(TankProgram(laws), c) {
      var k :| 0 <= k < 7 && TANK_COMPONENTS[k] == c;
    }
  }

  lemma EachClean(k: nat)
    requires k < 7
    ensures CleanAlone(TANK_COMPONENTS[k])
  {
    if k == 0 { CommandsClean(); }
    if k == 1 { RunStateClean(); }
    if k == 2 { AirlockClean(); }
    if k == 3 { SetpointClean(); }
    if k == 4 { InventoryClean(); }
    if k == 5 { BlowlineClean(); }
    if k == 6 { MotorClean(); }
  }

  /** Writer and unit are functions of the signal name, and readers stand after their writers. */
  lemma TankIsAccepted()
    ensures Accepts(TANK_COMPONENTS)
    ensures Topological(Dependencies(TANK_COMPONENTS), TANK_COMPONENTS)
  {
    forall k | 0 <= k < 7 ensures Layer(TANK_COMPONENTS[k], k, WriterOf, UnitOf) {
      DeclarationsOf(k);
      EachClean(k);
    }
    LayeredIsAccepted(TANK_COMPONENTS, WriterOf, UnitOf);
  }

  /** The order that Build hands out is the add order. */
  lemma TankOrder(order: seq<Component>)
    requires StableOrder(Dependencies(TANK_COMPONENTS), order)
    ensures order == TANK_COMPONENTS
  {
    TankIsAccepted();
    TopologicalAddOrderIsKept(TANK_COMPONENTS, order);
  }
}
