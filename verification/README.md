# SkyNet simulator: verified model

A Dafny model of the deterministic dataflow simulator in `simulator/`, with proofs of what its parts are for.
`dafny verify dfyconfig.toml` checks everything. Components, stores, the runner and the log store are classes
whose methods are proved against specification functions; what those functions mean is proved as lemmas.
Paths below are relative to the repository's root.

## What is modelled

**Building and ticking.** `Wiring`, `Adjacency`, `StableKahn` and `SimSystemBuilder` follow
`SimSystemBuilder.Build` loop by loop: writer table, unit check, edges, stable Kahn sort, cycle report.
`Ordering` says what the sort is for: its result is the lexicographically least topological order, it is unique,
and what is left over is exactly what lies downstream of a cycle. The hash sets may be enumerated in any order.
`SelfReads` says what becomes of a component that reads its own writes.
`Dataflow` gives a tick its meaning: the one solution of the components' simultaneous equations (a component sees
the old value of its own signals). So the schedule, and with it the order of the `Add` calls, is unobservable
over whole runs (`SimSystem`).

**Stores.** `SignalBus` and `ParameterStore` as objects; `ParameterRace` runs any number of `Set` calls on one
parameter through the compare-and-swap loop under every interleaving.

**Tank-transfer plant.** `TankModel` has the seven components, `TankPlant` proves that the built system's tick is
one step of a five-number state machine, and `TankTransferSystem` does it again with objects, events and a bus.
`TankRig`, `TankTheorems` and `TankSettling` prove the laws of whole runs: the invariant under any edits, the
inventory ledger, the interlock, the closed form of the clipped transfer, the comparison of two runs, and the decay
and settling of the blowline pressure with an explicit number of ticks, whatever is edited that does not enter
into it. `TankSignals` says what an observer of the bus sees after a tick of the built system, as relations between
signals, parameters and the state before. `Math.Exp` is a function parameter of which only sign, range and monotonicity are used
(`RationalExpIsExpLike` shows a function with these properties); `Physics` bundles it with the step.

**Hydraulic systems.** The four-component training system, added out of order, and the two-component demo system:
they agree at every tick under the same edits, and their actuator obeys a momentum ledger under any edits and
closed forms under all edits that leave the drive as it is. `HydraulicSignals` says what the bus shows of them. `Math.Pow(opening, 1.5)` is an uninterpreted function that both share.

**Runner.** `SimulationRunner` is the stepping and pacing as a program over what its stopwatch shows; `RunnerRace`
is the step lock, the loop, the callers, Pause and Resume under every interleaving.

**Log store.** `InMemoryLogStore` one call at a time; `LogWriters` is any number of overlapping `Add` calls and
their trimming, and `LogReaders` adds the dashboard's `Refresh`, which copies its cursor, awaits a page, and then
appends it and moves the cursor, in any number of overlapping calls; both under every interleaving. With one
`Refresh` at a time the reader also makes progress beside writers that keep running (`ReaderAdvances`).

## Where code and documentation disagree

- The builder compares signal names as declared, while `SignalBus.Set` stores under the trimmed name
  (`simulator/SkyNet.Simulator.Core/Systems/SimSystemBuilder.cs:33`,
  `simulator/SkyNet.Simulator.Core/Signals/SignalBus.cs:40`). Two spellings of one name therefore pass the
  single-writer check and write one entry (`PaddedNamesAreUnsafe`). Components that draw their names from a given
  set can always be relied on to write apart exactly if no two names of the set are equal when trimmed
  (`NamesAreSafeIff`). `SignalBus.Get` does not trim, so `Set` then `Get` under one name finds the value exactly
  when trimming leaves the name alone (`GetAfterSet`).
- The runner's comment says that there is no catch-up burst logic
  (`simulator/SkyNet.Simulator.Core/Simulation/SimulationRunner.cs:90`). The deadline is never moved after a stall
  or a pause, so a tick that is over only when m ticks, itself included, were due is the first of m in a row with
  no delay after them (`StallIsCaughtUp`).
- `Pause` does not wait for the loop. One further tick is possible exactly if the loop has already looked at the
  flag and waits for the lock (`FurtherTickIffLoopWaits`).
- `Define` does not clamp. Ranges survive it exactly when the value that ends up stored fits the new definition
  (`DefineKeepsRangeIff`).
- Change events are raised after the compare-and-swap and outside any lock
  (`simulator/SkyNet.Simulator.Core/Parameters/ParameterStore.cs:101-106`). Under every interleaving a subscriber
  is left with the current value exactly if calls to `Set` do not overlap or the limits admit only one value
  (`EventsTellValueIff`). All parameters that the systems define admit several.
- The log's page copies the cursor, awaits the answer, and only then appends and moves the cursor
  (`simulator/SkyNet.Simulator.Dashboard/Pages/Logs.razor:88-92`), while its button and its poll loop each start a
  `Refresh` (lines 18 and 74). Entries are received in ascending order and none twice exactly if no two of these
  overlap, or nothing is ever written (`NothingIsReadTwiceIff`).
- An `Add` takes its number before it enqueues. Overlapping ones can enqueue out of order, and a reader then never
  receives the smaller number. A reader whose calls do not overlap misses only trimmed entries exactly if `Add`
  calls do not overlap either (`OnlyTrimmedIsMissedIff`), and under the same condition it receives every other
  entry once enough of its calls have landed (`DeliversIff`).

## Model

| member | source | states |
|---|---|---|
| Wiring.CleanGivesSingleWriter | simulator/SkyNet.Simulator.Core/Systems/SimSystemBuilder.cs:23-41 | a list whose writes pass the check has one writer per signal |
| Wiring.AcceptsIsOrderFree | simulator/SkyNet.Simulator.Core/Systems/SimSystemBuilder.cs:23-84 | passing all checks is distinctness plus a property of the set of components: the order of Add plays no part |
| SimSystemBuilder.RegisterWriters | simulator/SkyNet.Simulator.Core/Systems/SimSystemBuilder.cs:23-41 | the writer table of all declarations, or the first blank name or second writer |
| SimSystemBuilder.BuildEdges | simulator/SkyNet.Simulator.Core/Systems/SimSystemBuilder.cs:43-79 | the successor sets and predecessor counts of the writer-to-reader graph without self-edges, or the first unit mismatch |
| Adjacency.Connect | simulator/SkyNet.Simulator.Core/Systems/SimSystemBuilder.cs:74-77 | an edge met again changes nothing; a new one counts once |
| SimSystemBuilder.ArrowsAreDependencies | simulator/SkyNet.Simulator.Core/Systems/SimSystemBuilder.cs:52-79 | the edges that the reads give rise to are exactly the pairs of different components that share a written and read signal |
| SimSystemBuilder.NoDuplicates | simulator/SkyNet.Simulator.Core/Systems/SimSystemBuilder.cs:81-84 | the index dictionary can be made exactly if no component was added twice |
| StableKahn.SortByIndex | simulator/SkyNet.Simulator.Core/Systems/SimSystemBuilder.cs:86-87 | the same nodes in ascending add index |
| StableKahn.Release | simulator/SkyNet.Simulator.Core/Systems/SimSystemBuilder.cs:96-103 | after emitting a node every count is again the number of predecessors not yet emitted, whatever order the hash set is walked in |
| StableKahn.EmitFirst | simulator/SkyNet.Simulator.Core/Systems/SimSystemBuilder.cs:90-106 | one round keeps the sorted prefix stable and the counts and the ready list exact |
| StableKahn.Kahn | simulator/SkyNet.Simulator.Core/Systems/SimSystemBuilder.cs:86-106 | the loop ends with a stable prefix that nothing extends; emitted is the same as count zero |
| StableKahn.SortOrLeftOver | simulator/SkyNet.Simulator.Core/Systems/SimSystemBuilder.cs:81-113 | everything is sorted iff the graph is acyclic; otherwise the report is exactly the set downstream of a cycle |
| SimSystemBuilder.SimSystemBuilder.constructor | simulator/SkyNet.Simulator.Core/Systems/SimSystemBuilder.cs:7-7 | nothing added yet |
| SimSystemBuilder.SimSystemBuilder.Add | simulator/SkyNet.Simulator.Core/Systems/SimSystemBuilder.cs:9-14 | the component comes last |
| SimSystemBuilder.SimSystemBuilder.Build | simulator/SkyNet.Simulator.Core/Systems/SimSystemBuilder.cs:16-116 | succeeds iff the list is acceptable and acyclic, with the stable order; each error says what is wrong, first fault first |
| Ordering.StableIsLeast | simulator/SkyNet.Simulator.Core/Systems/SimSystemBuilder.cs:81-106 | the stable order is lexicographically least by add index among all topological orders |
| Ordering.StableIsUnique | simulator/SkyNet.Simulator.Core/Systems/SimSystemBuilder.cs:81-106 | there is only one stable order |
| Ordering.AddOrderIsKept | simulator/SkyNet.Simulator.Core/Systems/SimSystemBuilder.cs:81-81 | an add order that is already topological is the stable order |
| Ordering.LeftOverIsDownstream | simulator/SkyNet.Simulator.Core/Systems/SimSystemBuilder.cs:108-113 | a node is never emitted iff some cycle leads to it |
| Ordering.AcyclicIffAllPlaced | simulator/SkyNet.Simulator.Core/Systems/SimSystemBuilder.cs:108-113 | there is no cycle iff every node has been emitted |
| BuilderTheorems.BuildIsLeastTopologicalOrder | simulator/SkyNet.Simulator.Core/Systems/SimSystemBuilder.cs:81-115 | what Build hands out is topological and no later than any other topological order |
| BuilderTheorems.BuiltIffSortable | simulator/SkyNet.Simulator.Core/Systems/SimSystemBuilder.cs:108-115 | an acceptable list is built exactly if it has any topological order |
| BuilderTheorems.TopologicalIffWritersFirst | simulator/SkyNet.Simulator.Core/Systems/SimSystemBuilder.cs:52-79 | an order is topological for the graph that is sorted iff no component reads what a later one writes; what it writes itself it may read |
| BuilderTheorems.BuiltIsWritersFirst | simulator/SkyNet.Simulator.Core/Systems/SimSystemBuilder.cs:16-115 | Build succeeds iff the list is acceptable and some arrangement of it has writers first, and hands out the least such arrangement |
| SelfReads.AloneIsBuilt | simulator/SkyNet.Simulator.Core/Systems/SimSystemBuilder.cs:62-72 | a single component is built iff its writes are in order and its reads of them have the unit that it writes |
| SelfReads.SelfReadsPlayNoPart | simulator/SkyNet.Simulator.Core/Systems/SimSystemBuilder.cs:69-72 | once units agree, taking the reads of its own writes out of every component changes neither success nor the order |
| Ordering.StableCarriesOver | simulator/SkyNet.Simulator.Core/Systems/SimSystemBuilder.cs:81-106 | the stable order depends on the arrows and the add order, not on what the nodes are |
| BuilderTheorems.TopologicalAddOrderIsKept | simulator/SkyNet.Simulator.Core/Systems/SimSystemBuilder.cs:81-106 | components added in topological order run in that order |
| BuilderTheorems.SuccessIgnoresAddOrder | simulator/SkyNet.Simulator.Core/Systems/SimSystemBuilder.cs:16-116 | permuting the Add calls does not change whether Build succeeds |
| BuilderTheorems.LayeredIsAccepted | simulator/SkyNet.Simulator.Core/Systems/SimSystemBuilder.cs:23-115 | a list in which signals are written layer by layer, and read from lower layers or by their own writer, passes every check as it stands |
| BuilderTheorems.AddedTwice | simulator/SkyNet.Simulator.Core/Systems/SimSystemBuilder.cs:33-84 | one component added twice never succeeds, and which complaint is due |
| BuilderTheorems.NamesAreSafeIff | simulator/SkyNet.Simulator.Core/Systems/SimSystemBuilder.cs:33-37 | every accepted list drawn from given non-blank names writes each bus entry from one component iff no two of the names trim alike |
| BuilderTheorems.PaddedNamesAreUnsafe | simulator/SkyNet.Simulator.Core/Signals/SignalBus.cs:40-40 | a trimmed name beside that name with white space behind it is never safe |
| Dataflow.TickSolves | simulator/SkyNet.Simulator.Core/Systems/SimSystem.cs:17-23 | ticking along any schedule satisfies every component's equation |
| Dataflow.SolutionIsUnique | simulator/SkyNet.Simulator.Core/Systems/SimSystem.cs:17-23 | the equations have at most one solution |
| Dataflow.TickIsTheSolution | simulator/SkyNet.Simulator.Core/Systems/SimSystem.cs:17-23 | a world solves the equations iff it is the one after the tick |
| Dataflow.ScheduleIsUnobservable | simulator/SkyNet.Simulator.Core/Systems/SimSystem.cs:17-23 | any two schedules give the same signals and memories after every run with the same edits |
| SimSystem.SimSystem.Tick | simulator/SkyNet.Simulator.Core/Systems/SimSystem.cs:17-23 | every component once, in execution order |
| SimSystem.BuiltTickIsTheSolution | simulator/SkyNet.Simulator.Core/Systems/SimSystem.cs:17-23 | a built system's tick is the one solution of its components' equations |
| SimSystem.AnyTopologicalOrderWillDo | simulator/SkyNet.Simulator.Core/Systems/SimSystemBuilder.cs:52-115 | any topological order gives the same run as the one that Build chose |
| SimSystem.AddOrderIsUnobservable | simulator/SkyNet.Simulator.Core/Systems/SimSystemBuilder.cs:9-115 | permuting the Add calls changes neither that the list is built nor any run of the built system |
| SignalBus.SignalBus.Set | simulator/SkyNet.Simulator.Core/Signals/SignalBus.cs:33-41 | stores under the trimmed name; refuses exactly blank names |
| SignalBus.GetAfterSet | simulator/SkyNet.Simulator.Core/Signals/SignalBus.cs:33-51 | Set then Get under one name finds the value iff the name is trimmed |
| Names.TrimTakesOuterWhite | simulator/SkyNet.Simulator.Core/Signals/SignalBus.cs:40-40 | the trimmed name is the name without white space at either end, and nothing else is taken |
| ParameterStore.ApplyValidation | simulator/SkyNet.Simulator.Core/Parameters/ParameterStore.cs:117-133 | the nearest value in range, and whether it differs from the request |
| ParameterStore.ParameterStore.Define | simulator/SkyNet.Simulator.Core/Parameters/ParameterStore.cs:26-34 | records the definition under the trimmed name and keeps a value that is there; refuses just blank names and limits that cross |
| ParameterStore.ParameterStore.Set | simulator/SkyNet.Simulator.Core/Parameters/ParameterStore.cs:78-110 | the store after it and the outcome: blank, unknown, unchanged, or changed with its event; what is stored is the admissible value nearest to the request |
| ParameterStore.SetStoresNearest | simulator/SkyNet.Simulator.Core/Parameters/ParameterStore.cs:78-110 | a defined parameter gets the admissible value nearest to the request, an undefined one the request, no other changes, and the event has the request and whether it was out of range |
| ParameterStore.SetToIsUnique | simulator/SkyNet.Simulator.Core/Parameters/ParameterStore.cs:78-110 | which leaves the store and the outcome no choice |
| ParameterStore.DefineRecords | simulator/SkyNet.Simulator.Core/Parameters/ParameterStore.cs:26-34 | Define refuses a blank name and crossing limits, puts the definition in force otherwise, and stores the default only if there was no value |
| ParameterStore.SetKeepsRange | simulator/SkyNet.Simulator.Core/Parameters/ParameterStore.cs:78-110 | Set keeps every parameter in range, touches only the named one, and raises an event iff the store changed |
| ParameterStore.SetTwiceIsSilent | simulator/SkyNet.Simulator.Core/Parameters/ParameterStore.cs:101-107 | the same Set again changes nothing and raises nothing |
| ParameterStore.DefineKeepsRangeIff | simulator/SkyNet.Simulator.Core/Parameters/ParameterStore.cs:26-34 | Define keeps all in range iff the value that ends up stored fits the new definition |
| ParameterDefinitions.DefineEach | simulator/SkyNet.Simulator.Core/Systems/TankTransferSystem.cs:64-72 | the store after a system's Define calls |
| ParameterDefinitions.DefineAllWorks | simulator/SkyNet.Simulator.Core/Parameters/ParameterStore.cs:26-34 | distinct fitting definitions all end up in force and in range, and no other value differs |
| ParameterDefinitions.DefinedParametersHold | simulator/SkyNet.Simulator.Core/Parameters/ParameterStore.cs:26-34 | over any store and distinct valid definitions, each parameter afterwards holds the value that was there or else its default, and nothing else differs |
| ParameterRace.EveryScheduleKeepsInv | simulator/SkyNet.Simulator.Core/Parameters/ParameterStore.cs:94-109 | under every interleaving: swaps chain, one per call, each of the admissible value for its request, events match, reads were honest, values in range |
| ParameterRace.ReturnedSetTookEffectOnce | simulator/SkyNet.Simulator.Core/Parameters/ParameterStore.cs:94-109 | a returned Set swapped exactly once, to the admissible value for its request and from the value held at that instant, and raised just that iff the value changed |
| ParameterRace.ValueIsLastSwap | simulator/SkyNet.Simulator.Core/Parameters/ParameterStore.cs:94-109 | successful swaps form a chain from the initial value to the current one, which is in range |
| ParameterRace.FailureBlamesAnother | simulator/SkyNet.Simulator.Core/Parameters/ParameterStore.cs:101-108 | a swap about to fail means that another call changed the value since the read |
| ParameterRace.RetriesAreBounded | simulator/SkyNet.Simulator.Core/Parameters/ParameterStore.cs:94-109 | a call fails no more often than the value has been changed |
| ParameterRace.UndisturbedCallReturns | simulator/SkyNet.Simulator.Core/Parameters/ParameterStore.cs:94-109 | left alone, a call returns within four of its own steps from any phase, and within three unless it holds a stale read |
| ParameterRace.EventsCanOvertake | simulator/SkyNet.Simulator.Core/Parameters/ParameterStore.cs:103-106 | whenever the limits admit two values and two calls may overlap, a reachable state in which all have returned and the last event does not carry the current value |
| ParameterRace.SerialEventsFollowSwaps | simulator/SkyNet.Simulator.Core/Parameters/ParameterStore.cs:94-109 | without overlap, the events are the value-changing swaps in order: all of them once no call is in progress, all but perhaps the last at any other moment |
| ParameterRace.EventsTellValueIff | simulator/SkyNet.Simulator.Core/Parameters/ParameterStore.cs:94-109 | whenever all calls have returned the last event carries the current value, under every interleaving, iff calls do not overlap or the limits admit one value only |
| TankWiring.TankIsAccepted | simulator/SkyNet.Simulator.Core/Systems/TankTransferSystem.cs:91-99 | the plant's seven components pass every check and stand in topological order |
| TankWiring.TankOrder | simulator/SkyNet.Simulator.Core/Systems/TankTransferSystem.cs:91-99 | Build hands out the add order |
| TankWiring.AllHonest | simulator/SkyNet.Simulator.Core/Systems/TankTransferSystem.cs:107-375 | each component writes only what it declares and depends only on the reads it declares |
| TankPlant.TickIsPlantTick | simulator/SkyNet.Simulator.Core/Systems/TankTransferSystem.cs:105-105 | the built system's tick is one step of the plant, shown in full on the bus |
| TankSignals.TickOnTheBus | simulator/SkyNet.Simulator.Core/Systems/TankTransferSystem.cs:107-374 | after a tick in the order that Build chose: commands and enables as the parameters say; speed and pressure as far from their targets as before times the exponential; 3 lb/s per Hz short of the rate by the share e^(-p/6); what the source loses, the destination gains and the rate accounts for, less than commanded only if one is empty or the other full; flags within 0.0001; the load short of 140 by 55 e^(-p/8) + 70 e^(-f/18) |
| TankSignals.SpeedClosesIn | simulator/SkyNet.Simulator.Core/Systems/TankTransferSystem.cs:155-164 | of the gap between the speed and its command, or zero with the drive off, e^(-dt/0.6) is left, unless that is negative |
| TankSignals.RateSaturates | simulator/SkyNet.Simulator.Core/Systems/TankTransferSystem.cs:194-206 | with both enabled 3s less the commanded rate is 3s e^(-p/6) |
| TankSignals.RateIsLinearInSpeed | simulator/SkyNet.Simulator.Core/Systems/TankTransferSystem.cs:194-206 | so it is linear in the speed, from 0 to 3s, and 0 without speed or command |
| TankSignals.TargetFallsShort | simulator/SkyNet.Simulator.Core/Systems/TankTransferSystem.cs:319-329 | the pressure target is short of the command by 0.8 of it at rest, 0.95 with the airlock off, in proportion less up to 30 Hz and by nothing from there |
| TankSignals.LoadSaturates | simulator/SkyNet.Simulator.Core/Systems/TankTransferSystem.cs:361-371 | 140 less the load is 55 e^(-p/8) + 70 e^(-f/18) |
| TankLaws.MovedFits | simulator/SkyNet.Simulator.Core/Systems/TankTransferSystem.cs:247-256 | what moves is there and fits, so the `Max(0, ..)` guards never act |
| TankLaws.LoadNeedsNoClamp | simulator/SkyNet.Simulator.Core/Systems/TankTransferSystem.cs:361-371 | the load lies in [15, 140): the clamp never bites |
| TankLaws.PhysicsIsSound | simulator/SkyNet.Simulator.Core/Systems/TankTransferSystem.cs:155-374 | the formulas keep speed, pressure and load within their scales, command nothing when disabled, and clip the transfer exactly |
| TankLaws.PhysicsIsMonotone | simulator/SkyNet.Simulator.Core/Systems/TankTransferSystem.cs:155-336 | more speed, pressure or command never gives less |
| TankLaws.RationalExpIsExpLike | simulator/SkyNet.Simulator.Core/Systems/TankTransferSystem.cs:155-317 | there is a function with every property of exp that is used |
| TankRig.RunExists | simulator/SkyNet.Simulator.Core/Systems/TankTransferSystem.cs:102-105 | every sequence of edits and ticks has a run from every state |
| TankRig.ActKeepsInv | simulator/SkyNet.Simulator.Core/Systems/TankTransferSystem.cs:155-336 | ticks and edits keep speed in [0,30], pressure in [0,25], weights non-negative, and the capacity equal to the stored parameter |
| TankRig.RunKeepsInv | simulator/SkyNet.Simulator.Core/Systems/TankTransferSystem.cs:155-336 | so every state of every run satisfies these |
| TankRig.LedgerBalances | simulator/SkyNet.Simulator.Core/Systems/TankTransferSystem.cs:245-287 | over every run, source plus destination is what it was plus the jumps of the edits, truncation included |
| TankRig.SameTickInterlock | simulator/SkyNet.Simulator.Core/Systems/TankTransferSystem.cs:132-262 | a tick with either enable below one half moves nothing, with no one-tick lag |
| TankRig.StoredWeightDoesNotRefill | simulator/SkyNet.Simulator.Core/Parameters/ParameterStore.cs:101-107 | setting a weight to its stored value leaves the plant as it is |
| TankRig.EditIsSeen | simulator/SkyNet.Simulator.Core/Systems/TankTransferSystem.cs:268-287 | an edit that changes a stored weight puts just that into its tank, one that changes the capacity cuts the destination to it if it is positive, and nothing else in the plant differs |
| TankRig.EditsSaturate | simulator/SkyNet.Simulator.Core/Systems/TankTransferSystem.cs:64-72 | what a Set of a plant parameter stores: the request within 0..1 for the enables, 0..25 psi, 0..30 Hz, and from 0 up for weights and capacity |
| TankTheorems.InterlockOnTheBus | simulator/SkyNet.Simulator.Core/Systems/TankTransferSystem.cs:91-99 | in the order that Build chose, that very tick shows rate 0 and the old weights on the bus |
| TankTheorems.TransferClosedForm | simulator/SkyNet.Simulator.Core/Systems/TankTransferSystem.cs:245-258 | destination = min(start + commanded pounds, all there is, capacity or start), source the remainder |
| TankTheorems.HigherCommandsStayAhead | simulator/SkyNet.Simulator.Core/Systems/TankTransferSystem.cs:155-336 | pointwise higher commands give at every tick at least the speed, commanded rate, pressure and destination, at most the source |
| TankTheorems.RunBySettings | simulator/SkyNet.Simulator.Core/Systems/TankTransferSystem.cs:245-287 | a run whose edits leave the inventory alone is the plant under the settings of its ticks |
| TankTheorems.PlantLedger | simulator/SkyNet.Simulator.Core/Systems/TankTransferSystem.cs:245-287 | the ledger for the formulas of the code, over every run from a state in range |
| TankTheorems.PlantInterlock | simulator/SkyNet.Simulator.Core/Systems/TankTransferSystem.cs:132-262 | the interlock for the formulas of the code, at every tick of a run |
| TankTheorems.PlantTransfer | simulator/SkyNet.Simulator.Core/Systems/TankTransferSystem.cs:245-258 | the closed form of the transfer for the formulas of the code |
| TankTheorems.PlantComparison | simulator/SkyNet.Simulator.Core/Systems/TankTransferSystem.cs:155-336 | the comparison of two runs for the formulas of the code, the rate commanded at each further tick included |
| TankTheorems.LoadInRange | simulator/SkyNet.Simulator.Core/Systems/TankTransferSystem.cs:352-374 | at every tick of every run the blower load is 0 when off and unclamped in [15,140) when on |
| TankSettling.PressureDecaysExactly | simulator/SkyNet.Simulator.Core/Systems/TankTransferSystem.cs:309-317 | blower off at every tick: the pressure is the first times e^(-dt/0.9) to the power of the ticks, whatever is edited |
| TankSettling.SpeedDecaysExactly | simulator/SkyNet.Simulator.Core/Systems/TankTransferSystem.cs:155-167 | airlock off at every tick: so is the speed, with e^(-dt/0.6) |
| TankSettling.SpeedFollowsCommand | simulator/SkyNet.Simulator.Core/Systems/TankTransferSystem.cs:155-167 | airlock driven to one speed at every tick: the gap to it is the first times e^(-dt/0.6) to the power of the ticks |
| TankSettling.StepLengthPlaysNoPart | simulator/SkyNet.Simulator.Core/Systems/TankTransferSystem.cs:161-163 | if exp turns sums into products, n steps leave of a gap what one step n times as long would |
| TankSettling.FloorHolds | simulator/SkyNet.Simulator.Core/Systems/TankTransferSystem.cs:319-333 | airlock off, blower on and one pressure command at every tick: once at or above 0.05 of the command the pressure never drops below it, whatever else is edited |
| TankSettling.PressureSettlesOnFloor | simulator/SkyNet.Simulator.Core/Systems/TankTransferSystem.cs:319-333 | and after an explicit number of ticks it is within eps of it |
| TankSettling.IdlingIsSteady | simulator/SkyNet.Simulator.Core/Systems/TankTransferSystem.cs:155-336 | under these conditions speed and pressure move as under constant settings |
| TankSettling.UndisturbedIsSteady | simulator/SkyNet.Simulator.Core/Systems/TankTransferSystem.cs:105-105 | without edits the whole plant does |
| TankTransferSystem.AirlockDriveComponent.Tick | simulator/SkyNet.Simulator.Core/Systems/TankTransferSystem.cs:155-167 | the new speed, in the field and on the bus |
| TankTransferSystem.BlowlinePressureDynamicsComponent.Tick | simulator/SkyNet.Simulator.Core/Systems/TankTransferSystem.cs:307-336 | the new pressure, in the field and on the bus |
| TankTransferSystem.TankInventoryComponent.Tick | simulator/SkyNet.Simulator.Core/Systems/TankTransferSystem.cs:245-266 | the new weights in the fields; weights, rate and flags on the bus |
| TankTransferSystem.TankInventoryComponent.HandleParameterChanged | simulator/SkyNet.Simulator.Core/Systems/TankTransferSystem.cs:268-287 | an edited weight is in its tank at once and touches nothing else; an edited capacity cuts the destination to it |
| TankTransferSystem.TickCommands | simulator/SkyNet.Simulator.Core/Systems/TankTransferSystem.cs:116-120 | the two commands go on the bus |
| TankTransferSystem.TickRunState | simulator/SkyNet.Simulator.Core/Systems/TankTransferSystem.cs:132-138 | the two enables as flags |
| TankTransferSystem.TickSetpoint | simulator/SkyNet.Simulator.Core/Systems/TankTransferSystem.cs:184-207 | the commanded rate |
| TankTransferSystem.TickMotor | simulator/SkyNet.Simulator.Core/Systems/TankTransferSystem.cs:352-374 | the blower load |
| TankTransferSystem.Wire | simulator/SkyNet.Simulator.Core/Systems/TankTransferSystem.cs:91-99 | the seven Add calls and Build succeed, in the add order |
| TankTransferSystem.TankTransferSystem.constructor | simulator/SkyNet.Simulator.Core/Systems/TankTransferSystem.cs:59-100 | parameters defined, signals that mirror a parameter at its value and the others at zero, fields from the stored parameters |
| TankTransferSystem.TankTransferSystem.Tick | simulator/SkyNet.Simulator.Core/Systems/TankTransferSystem.cs:105-105 | fields and bus afterwards are one step of the plant |
| TankTransferSystem.TankTransferSystem.SetParameter | simulator/SkyNet.Simulator.Core/Parameters/ParameterStore.cs:78-110 | a Set and its event are one edit of the rig: a changed weight or capacity is in the tank at once, and nothing else in the plant differs |
| TankTransferSystem.NewRigIsGood | simulator/SkyNet.Simulator.Core/Systems/TankTransferSystem.cs:59-100 | a new system satisfies the invariant over every store in range whose values under the system's names, if there are any, fit its definitions |
| TankTransferSystem.NewPlantHoldsParameters | simulator/SkyNet.Simulator.Core/Systems/TankTransferSystem.cs:59-76 | a new plant is at rest and its tanks hold what the store has for them, or 20000 lb, 5000 lb and room for 40000 |
| TankTransferSystem.NewCommandsHold | simulator/SkyNet.Simulator.Core/Systems/TankTransferSystem.cs:67-72 | its drives are disabled, at 8 psi and 8 Hz, unless the store says otherwise |
| TankTransferSystem.NewParametersAreDefinable | simulator/SkyNet.Simulator.Core/Parameters/ParameterStore.cs:26-34 | as are those of any store that holds none of these names |
| HydraulicModel.TrainingIsAccepted | simulator/SkyNet.Simulator.Core/Systems/HydraulicTrainingSystem.cs:53-59 | the out-of-order components pass every check |
| HydraulicModel.DemoIsAccepted | simulator/SkyNet.Simulator.Core/Systems/DemoHydraulicSystem.cs:45-48 | so do the two components of the demo system |
| HydraulicTheorems.TrainingOrder | simulator/SkyNet.Simulator.Core/Systems/HydraulicTrainingSystem.cs:53-59 | Build puts them in the order supply, valve, actuator, sensor |
| HydraulicTicks.TrainingTick | simulator/SkyNet.Simulator.Core/Systems/HydraulicTrainingSystem.cs:65-148 | a tick in the order that Build chose shows this tick's upstream and downstream pressure, flow and sensor reading, and moves the actuator by that pressure |
| HydraulicTicks.DemoTick | simulator/SkyNet.Simulator.Core/Systems/DemoHydraulicSystem.cs:54-106 | the demo system's tick shows and moves the same |
| HydraulicSignals.PressureIsProportional | simulator/SkyNet.Simulator.Core/Systems/HydraulicTrainingSystem.cs:93-98 | downstream pressure is proportional to the supply, and at 1 psi what the power makes of the opening |
| HydraulicSignals.FlowIsProportional | simulator/SkyNet.Simulator.Core/Systems/HydraulicTrainingSystem.cs:100-101 | flow is proportional to gain, opening and supply, and the gain itself at full opening and 1000 psi |
| HydraulicSignals.TickOnTheBus | simulator/SkyNet.Simulator.Core/Systems/HydraulicTrainingSystem.cs:91-148 | after a tick of either system in the order that Build chose, the bus shows the supply times the power of the opening, and velocity and position have moved by dt times 0.002 of pressure less load less 0.8 of the velocity, and dt times the new velocity |
| HydraulicSignals.TrainingOnTheBus | simulator/SkyNet.Simulator.Core/Systems/HydraulicTrainingSystem.cs:65-116 | and in the training system the supply, the flow and a sensor that reads the downstream pressure |
| HydraulicSignals.RunOnTheBus | simulator/SkyNet.Simulator.Core/Systems/HydraulicTrainingSystem.cs:65-148 | so after every tick of every run of either |
| HydraulicTheorems.SystemsAgree | simulator/SkyNet.Simulator.Core/Systems/HydraulicTrainingSystem.cs:91-148 | under the same edits and ticks both systems show the same pressure, velocity and position after every action |
| HydraulicTheorems.LawsAreDamped | simulator/SkyNet.Simulator.Core/Systems/HydraulicTrainingSystem.cs:139-144 | acceleration is 0.002 of the drive less 0.8 of the velocity |
| HydraulicTheorems.MomentumBalances | simulator/SkyNet.Simulator.Core/Systems/HydraulicTrainingSystem.cs:134-148 | under any edits (1-0.8dt)v + 0.8x grows by 0.002dt times the sum of pressure less load |
| HydraulicTheorems.VelocityClosedForm | simulator/SkyNet.Simulator.Core/Systems/HydraulicTrainingSystem.cs:134-148 | while the drive (pressure less load) of every tick is d, v_n - v* = (1-0.8dt)^n (v_0 - v*) after n ticks, whatever is edited |
| HydraulicTheorems.VelocitySettles | simulator/SkyNet.Simulator.Core/Systems/HydraulicTrainingSystem.cs:134-148 | with a step under 2.5 s it is then within eps of v* after an explicit number of ticks |
| HydraulicTheorems.LongStepsNeverSettle | simulator/SkyNet.Simulator.Core/Systems/HydraulicTrainingSystem.cs:134-148 | with any longer step it then never comes closer to v* than it was |
| HydraulicTheorems.PositionClosedForm | simulator/SkyNet.Simulator.Core/Systems/HydraulicTrainingSystem.cs:134-148 | under the same condition x_n = x_0 + n dt v* + (1.25-dt)(v_0 - v_n) |
| HydraulicSystems.ActuatorComponent.Tick | simulator/SkyNet.Simulator.Core/Systems/HydraulicTrainingSystem.cs:134-148 | new velocity and position, in the fields and on the bus |
| HydraulicSystems.TickSupply | simulator/SkyNet.Simulator.Core/Systems/HydraulicTrainingSystem.cs:72-76 | the supply pressure goes on the bus |
| HydraulicSystems.TickValve | simulator/SkyNet.Simulator.Core/Systems/HydraulicTrainingSystem.cs:91-102 | downstream pressure and flow |
| HydraulicSystems.TickSensor | simulator/SkyNet.Simulator.Core/Systems/HydraulicTrainingSystem.cs:113-116 | the sensor shows the downstream pressure |
| HydraulicSystems.TickPressureDrop | simulator/SkyNet.Simulator.Core/Systems/DemoHydraulicSystem.cs:64-72 | downstream pressure straight from the parameters |
| HydraulicSystems.WireTraining | simulator/SkyNet.Simulator.Core/Systems/HydraulicTrainingSystem.cs:53-59 | the out-of-order Add calls and Build end in the layered order |
| HydraulicSystems.WireDemo | simulator/SkyNet.Simulator.Core/Systems/DemoHydraulicSystem.cs:45-48 | the demo system is built in add order |
| HydraulicSystems.HydraulicTrainingSystem.constructor | simulator/SkyNet.Simulator.Core/Systems/HydraulicTrainingSystem.cs:36-60 | parameters defined, signals zero, actuator at rest |
| HydraulicSystems.HydraulicTrainingSystem.Tick | simulator/SkyNet.Simulator.Core/Systems/HydraulicTrainingSystem.cs:65-65 | fields and bus afterwards are a tick in the order that Build chose |
| HydraulicSystems.DemoHydraulicSystem.constructor | simulator/SkyNet.Simulator.Core/Systems/DemoHydraulicSystem.cs:32-49 | parameters defined, signals zero, actuator at rest |
| HydraulicSystems.DemoHydraulicSystem.Tick | simulator/SkyNet.Simulator.Core/Systems/DemoHydraulicSystem.cs:54-57 | fields and bus afterwards are a tick in the order that Build chose |
| HydraulicSystems.NewSystemsAreAlike | simulator/SkyNet.Simulator.Core/Systems/DemoHydraulicSystem.cs:32-49 | two newly constructed systems start out alike, so that the agreement applies to them, iff each shared parameter comes to one value over their stores |
| HydraulicSystems.NewTrainingParametersHold | simulator/SkyNet.Simulator.Core/Systems/HydraulicTrainingSystem.cs:41-44 | 2000 psi, opening 0.2, load 800 and 20 gpm, unless the store has other values |
| HydraulicSystems.NewDemoParametersHold | simulator/SkyNet.Simulator.Core/Systems/DemoHydraulicSystem.cs:37-39 | the same without the gain |
| Clock.NewClock | simulator/SkyNet.Simulator.Core/Simulation/FixedStepClock.cs:5-14 | a clock at zero, unless the step is not positive |
| Clock.FixedStepClock.Advance | simulator/SkyNet.Simulator.Core/Simulation/FixedStepClock.cs:19-23 | the next tick of the fixed step |
| Clock.TimeIsTickTimesStep | simulator/SkyNet.Simulator.Core/Simulation/SimTime.cs:7-8 | after n advances the time is n times the step |
| SimulationRunner.SimulationRunner.StepOnce | simulator/SkyNet.Simulator.Core/Simulation/SimulationRunner.cs:30-36 | the system receives the next tick |
| SimulationRunner.SimulationRunner.Step | simulator/SkyNet.Simulator.Core/Simulation/SimulationRunner.cs:38-49 | exactly that many ticks in a row, or none if fewer than one is asked for |
| SimulationRunner.SimulationRunner.RunRealTime | simulator/SkyNet.Simulator.Core/Simulation/SimulationRunner.cs:51-99 | one tick per turn that is no rest; late ticks counted exactly and their greatest lateness kept; each delay asked for ends when the schedule says |
| SimulationRunner.TickAt | simulator/SkyNet.Simulator.Core/Simulation/SimulationRunner.cs:34-34 | the k-th tick after the first ones carries its number, number times step, and the step |
| SimulationRunner.NoTickIsEarly | simulator/SkyNet.Simulator.Core/Simulation/SimulationRunner.cs:54-97 | if no delay ends early, tick k (from 0) never starts before start + k periods, pauses included |
| SimulationRunner.LatenessIsPastSchedule | simulator/SkyNet.Simulator.Core/Simulation/SimulationRunner.cs:57-97 | tick k (from 0) is late iff it is done at or after start + (k+1) periods, by what it is past that; its delay ends then, or at once; a rest takes 25 ms |
| SimulationRunner.StallIsCaughtUp | simulator/SkyNet.Simulator.Core/Simulation/SimulationRunner.cs:74-97 | in every timed run, a tick over only when m ticks (itself included) were due is the first of m with no delay after them |
| RunnerRace.EveryScheduleKeepsInv | simulator/SkyNet.Simulator.Core/Simulation/SimulationRunner.cs:30-72 | under every interleaving: one call inside the lock, clock and deliveries in step, one tick per call, one call of the loop |
| RunnerRace.TicksArriveInOrder | simulator/SkyNet.Simulator.Core/Simulation/SimulationRunner.cs:30-49 | the system receives ticks 1, 2, 3, ... once each and in order, at time number times step |
| RunnerRace.ReturnedCallTickedOnce | simulator/SkyNet.Simulator.Core/Simulation/SimulationRunner.cs:30-36 | a StepOnce that has returned ticked the system exactly once, a waiting one not at all |
| RunnerRace.ClockShowsDeliveries | simulator/SkyNet.Simulator.Core/Simulation/SimulationRunner.cs:21-36 | with nobody inside, the clock shows the ticks that the system has seen |
| RunnerRace.SomeCallCanMove | simulator/SkyNet.Simulator.Core/Simulation/SimulationRunner.cs:32-35 | no deadlock |
| RunnerRace.PauseStopsTheLoop | simulator/SkyNet.Simulator.Core/Simulation/SimulationRunner.cs:57-72 | after Pause and until Resume the loop starts at most one further tick, and none unless it was already waiting for the lock |
| RunnerRace.FurtherTickIffLoopWaits | simulator/SkyNet.Simulator.Core/Simulation/SimulationRunner.cs:57-72 | in every reachable state, a Pause without Resume can be followed by that further tick iff the loop was already waiting for the lock |
| RunnerRace.ResumedLoopCanTick | simulator/SkyNet.Simulator.Core/Simulation/SimulationRunner.cs:28-72 | from every reachable state Resume can be followed by a tick of the loop |
| RunnerRace.StepOnceCanReturn | simulator/SkyNet.Simulator.Core/Simulation/SimulationRunner.cs:30-36 | from every reachable state a new StepOnce can get through, paused or not |
| LogEntries.ByNumberSorts | simulator/SkyNet.Simulator.Daemon/InMemoryLogStore.cs:37-41 | entries of distinct numbers end up in ascending order |
| LogEntries.ByNumberIsPermutation | simulator/SkyNet.Simulator.Daemon/InMemoryLogStore.cs:37-41 | sorting loses nothing and adds nothing |
| LogEntries.PageIsPage | simulator/SkyNet.Simulator.Daemon/InMemoryLogStore.cs:30-45 | a page is, in ascending order, exactly the entries between the old and the new cursor; as many as were asked for, from 1 to 500, or all that are newer if those are fewer |
| InMemoryLogStore.InMemoryLogStore.constructor | simulator/SkyNet.Simulator.Daemon/InMemoryLogStore.cs:12-15 | empty, with room for at least 100 |
| InMemoryLogStore.InMemoryLogStore.Add | simulator/SkyNet.Simulator.Daemon/InMemoryLogStore.cs:17-28 | the new entry comes last, before it the newest of the others, up to the maximum and numbered without a gap |
| InMemoryLogStore.InMemoryLogStore.TrimIfNeeded | simulator/SkyNet.Simulator.Daemon/InMemoryLogStore.cs:47-54 | the oldest go until the maximum is met |
| InMemoryLogStore.InMemoryLogStore.Get | simulator/SkyNet.Simulator.Daemon/InMemoryLogStore.cs:30-45 | the page after the cursor |
| LogWriters.SizeAlways | simulator/SkyNet.Simulator.Daemon/InMemoryLogStore.cs:17-54 | under every interleaving the queue is over its maximum by at most the Adds still trimming, and short by fewer than there are threads |
| LogWriters.LogIsBounded | simulator/SkyNet.Simulator.Daemon/InMemoryLogStore.cs:47-54 | over by at most the Adds in progress; with none the log holds at most its maximum |
| LogWriters.TrimNeverGoesFar | simulator/SkyNet.Simulator.Daemon/InMemoryLogStore.cs:47-54 | with T adders no dequeue leaves fewer than maximum + 1 - T entries |
| LogWriters.TrimBoundIsReached | simulator/SkyNet.Simulator.Daemon/InMemoryLogStore.cs:50-53 | and for every T up to maximum + 1 a reachable dequeue leaves just that many |
| LogWriters.OldestGoFirst | simulator/SkyNet.Simulator.Daemon/InMemoryLogStore.cs:47-54 | under every interleaving the queue is what was there and came since, in that order, less some of the oldest |
| LogWriters.NewestAreKept | simulator/SkyNet.Simulator.Daemon/InMemoryLogStore.cs:47-54 | so it always holds the newest of all entries that came |
| LogWriters.NumbersAlways | simulator/SkyNet.Simulator.Daemon/InMemoryLogStore.cs:17-28 | under every interleaving numbers are taken once, enqueued once, and distinct in the queue |
| LogReaders.StoreInvariants | simulator/SkyNet.Simulator.Daemon/InMemoryLogStore.cs:30-45 | whatever readers do, the store stays in a state that writers reach by themselves |
| LogReaders.EveryScheduleKeepsInv | simulator/SkyNet.Simulator.Dashboard/Pages/Logs.razor:83-106 | with one Refresh at a time, under every interleaving each entry is pending, read, lost or overtaken, and read is exclusive |
| LogReaders.OneRefreshIsReliable | simulator/SkyNet.Simulator.Dashboard/Pages/Logs.razor:88-92 | then numbers arrive strictly ascending, and of what the cursor has passed exactly what was neither trimmed before it got there nor enqueued behind it |
| LogReaders.NothingIsReadTwiceIff | simulator/SkyNet.Simulator.Dashboard/Pages/Logs.razor:83-106 | numbers arrive strictly ascending under every interleaving iff at most one Refresh is in flight or there is no writer |
| LogReaders.OverlappingRefreshesRepeat | simulator/SkyNet.Simulator.Dashboard/Pages/Logs.razor:88-92 | with two in flight and any writer, a reachable state in which one entry was received twice |
| LogReaders.OnlyTrimmedIsMissedIff | simulator/SkyNet.Simulator.Daemon/InMemoryLogStore.cs:17-28 | one Refresh at a time misses only trimmed entries, under every interleaving, iff at most one Add is in progress |
| LogReaders.OverlappingAddsCanHide | simulator/SkyNet.Simulator.Daemon/InMemoryLogStore.cs:19-26 | with two overlapping Adds an entry in the log can be behind the cursor without having been received |
| LogReaders.ReaderAdvances | simulator/SkyNet.Simulator.Dashboard/Pages/Logs.razor:83-106 | beside writers that keep running, under every schedule of theirs, of answers, delays and failures: once as many Refreshes have landed as entry n is ahead of the cursor (one more if an empty page was on its way), n is received, trimmed before, or overtaken; with one Add at a time received or trimmed |
| LogReaders.DeliversIff | simulator/SkyNet.Simulator.Dashboard/Pages/Logs.razor:83-106 | every entry is received or trimmed after that many landings, under every interleaving, iff at most one Add is in progress |
| LogReaders.SomeRefreshCanLand | simulator/SkyNet.Simulator.Dashboard/Pages/Logs.razor:83-106 | from every state some Refresh can land within three steps of the reader's own |
| LogReaders.ReaderCatchesUp | simulator/SkyNet.Simulator.Dashboard/Pages/Logs.razor:88-92 | with the writers at rest, as many Refreshes in a row as entries pending are enough to have received everything enqueued except the trimmed and the overtaken |

## Left out

- Floating point: doubles are reals, so rounding, NaN and infinities are not modelled, and `Equals` in the stores is equality of reals.
- `Math.Exp` and `Math.Pow`: function parameters; no numeric value beyond `exp(0) = 1` is used. That `exp` turns sums into products is a hypothesis of `StepLengthPlaysNoPart` alone.
- Case folding: names are compared by OrdinalIgnoreCase in the code; here they stand for names in one case. Names are never null.
- Edits in the middle of a tick: an edit falls between two ticks. Nothing in the code enforces this.
- ParameterStore.ParameterStore.Set: one thread, so the compare-and-swap succeeds at once; `ParameterRace` has the loop with its retries.
- Concurrent edits and the tank's capacity: `RunKeepsInv` takes edits one after another, since with overlapping ones the last event need not carry the stored capacity (`EventsTellValueIff`).
- `List.Sort` is an insertion sort here; the contract of `SortByIndex` fixes the result, since add indices differ.
- Component objects are values that carry an identity; error texts are reduced to the names involved, and the reported cycle is a set.
- A component's own exception in a tick, and reading a signal or parameter that is not there (`Dataflow.Read` gives zero; in the built systems every name is there).
- SimulationRunner.SimulationRunner.RunRealTime: the observed flag, times and the end of the loop are its input; `TimeSpan` rounding is the parameter `period`, and cancellation ends the list of turns.
- Task.Delay: assumed never to end early, which the millisecond resolution of timers does not guarantee.
- Log entries' timestamps are inputs; the queue's own operations are taken as atomic, and so is a Refresh's append with the move of its cursor, which follow each other without an await.
- The logs page's trimming of its rows to 1500 and its error text: display only.
- The logs page's choice of simulation: the reader of the model stays with one log; on the page the cursor is kept when another log is chosen.
- Typed overloads, TryGet, Contains, Snapshot, descriptions and unit labels: wrappers and copies of what is modelled.
- SimViewCache, SimulationRegistry, unit structs, telemetry, HTTP and SignalR endpoints, dashboard, CLI and contracts: I/O, UI or easy members.
