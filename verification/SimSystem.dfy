/** The built system and its tick, and what the choice of order means for whoever watches it. */
module SimSystem {
  import opened Ordering
  import opened Wiring
  import opened Dataflow
  import opened BuilderTheorems

  /** The program's components touch what their declarations say. */
  ghost predicate Declared<S(!new), I(!new)>(p: Program<Component, S, I>) {
    forall c :: p.inputs(c) == NamesOf(c.inputs) && p.outputs(c) == NamesOf(c.outputs)
  }

  class SimSystem<!S(!new), !I(!new)> {
    const program: Program<Component, S, I>
    const ordered: seq<Component>
    var signals: Bus
    var memories: map<Component, S>

    ghost predicate Valid() reads this {
      forall c <- ordered :: c in memories
    }

    function State(): World<Component, S> reads this {
      World(signals, memories)
    }

    constructor (program: Program<Component, S, I>, ordered: seq<Component>, signals: Bus, memories: map<Component, S>)
      requires forall c <- ordered :: c in memories
      ensures Valid() && State() == World(signals, memories)
      ensures this.program == program && this.ordered == ordered
    {
      this.program, this.ordered, this.signals, this.memories := program, ordered, signals, memories;
    }

    method TickComponent(c: Component, input: I)
      requires c in memories
      modifies this
      ensures State() == TickOne(program, input, old(State()), c)
    {
      var e := program.step(c, memories[c], input, signals);
      signals := signals + e.outputs;
      memories := memories[c := e.memory];
    }

    /** Every component ticks once, in execution order. */
    method Tick(input: I)
      requires Valid()
      modifies this
      ensures Valid() && State() == TickAll(program, input, old(State()), ordered)
    {
      for i := 0 to |ordered|
        invariant memories.Keys == old(memories.Keys)
        invariant State() == TickAll(program, input, old(State()), ordered[..i])
      {
        assert ordered[..i + 1][..i] == ordered[..i];
        TickComponent(ordered[i], input);
      }
      assert ordered[..|ordered|] == ordered;
    }
  }

  /** A topological order of the dependencies is a schedule in the sense of the equations. */
  lemma TopologicalIsSchedule<S(!new), I(!new)>(p: Program<Component, S, I>, comps: seq<Component>,
                                                order: seq<Component>)
    requires Declared(p) && Topological(Dependencies(comps), order)
    ensures Schedule(p, SetOf(comps), order)
  {
    forall i, j | 0 <= i < j < |order| ensures !Arrow(p, order[j], order[i]) {
      assert order[j] in comps && order[i] in comps;
      assert (order[j], order[i]) !in Dependencies(comps).arrows;
      assert !Edge(order[j], order[i]);
      assert p.outputs(order[j]) == NamesOf(order[j].outputs) && p.inputs(order[i]) == NamesOf(order[i].inputs);
    }
  }

  lemma AcceptedHaveOneWriter<S(!new), I(!new)>(p: Program<Component, S, I>, comps: seq<Component>)
    requires Declared(p) && Accepts(comps)
    ensures OneWriter(p, SetOf(comps))
  {
    CleanGivesSingleWriter(comps);
    forall a, b, n | a in SetOf(comps) && b in SetOf(comps) && n in p.outputs(a) && n in p.outputs(b)
      ensures a == b
    {
      assert n in NamesOf(a.outputs) && n in NamesOf(b.outputs);
    }
  }

  /** The world and the program fit the built list. */
  ghost predicate Fits<S(!new), I(!new)>(p: Program<Component, S, I>, comps: seq<Component>, w: World<Component, S>) {
    Declared(p) && forall c <- comps :: Honest(p, c) && c in w.memory
  }

  lemma BuiltIsSchedule<S(!new), I(!new)>(
      p: Program<Component, S, I>, comps: seq<Component>, w: World<Component, S>, order: seq<Component>)
    requires Fits(p, comps, w) && Accepts(comps) && StableOrder(Dependencies(comps), order)
    ensures Schedule(p, SetOf(comps), order) && WellFormed(p, SetOf(comps), w)
    ensures forall c <- order :: c in w.memory
  {
    BuildIsLeastTopologicalOrder(comps, order);
    TopologicalIsSchedule(p, comps, order);
    AcceptedHaveOneWriter(p, comps);
    ScheduleIndex(p, SetOf(comps), order);
  }

  /** A built system's tick computes the one solution of its components' equations. */
  lemma BuiltTickIsTheSolution<S(!new), I(!new)>(
      p: Program<Component, S, I>, comps: seq<Component>, input: I, w: World<Component, S>,
      order: seq<Component>, w': World<Component, S>)
    requires Fits(p, comps, w) && Accepts(comps) && StableOrder(Dependencies(comps), order)
    ensures (forall c <- order :: c in w.memory) && (forall c <- SetOf(comps) :: c in w.memory)
    ensures Solves(p, SetOf(comps), input, w, w') <==> w' == TickAll(p, input, w, order)
  {
    BuiltIsSchedule(p, comps, w, order);
    TickIsTheSolution(p, SetOf(comps), input, w, order, w');
  }

  /** Stable or not, any topological order gives the same run as the order that Build chose. */
  lemma AnyTopologicalOrderWillDo<S(!new), I(!new)>(
      p: Program<Component, S, I>, comps: seq<Component>, w: World<Component, S>,
      order: seq<Component>, other: seq<Component>, moments: seq<Moment<Component, S, I>>)
    requires Fits(p, comps, w) && Accepts(comps) && StableOrder(Dependencies(comps), order)
    requires Topological(Dependencies(comps), other) && forall m <- moments :: KeepsMemories(m)
    ensures (forall c <- order :: c in w.memory) && (forall c <- other :: c in w.memory)
    ensures Run(p, w, order, moments) == Run(p, w, other, moments)
  {
    BuiltIsSchedule(p, comps, w, order);
    TopologicalIsSchedule(p, comps, other);
    ScheduleIsUnobservable(p, SetOf(comps), w, order, other, moments);
  }

  lemma StableHasNoCycle(comps: seq<Component>, order: seq<Component>)
    requires Accepts(comps) && StableOrder(Dependencies(comps), order)
    ensures Acyclic(Dependencies(comps))
  {
    BuildIsLeastTopologicalOrder(comps, order);
    forall c | c in comps ensures !OnCycle(Dependencies(comps), c) {
      TopologicalHasNoCycle(Dependencies(comps), order, c);
    }
  }

  ghost predicate SameRun<S(!new), I(!new)>(
      p: Program<Component, S, I>, w: World<Component, S>, a: seq<Component>, b: seq<Component>,
      moments: seq<Moment<Component, S, I>>)
  {
    && (forall c <- a :: c in w.memory) && (forall c <- b :: c in w.memory) && (forall m <- moments :: KeepsMemories(m))
    && Run(p, w, a, moments) == Run(p, w, b, moments)
  }

  lemma BuiltOrdersRunAlike<S(!new), I(!new)>(
      p: Program<Component, S, I>, comps: seq<Component>, comps': seq<Component>, w: World<Component, S>,
      order: seq<Component>, order': seq<Component>, moments: seq<Moment<Component, S, I>>)
    requires multiset(comps) == multiset(comps') && Fits(p, comps, w) && Accepts(comps) && Accepts(comps')
    requires StableOrder(Dependencies(comps), order) && StableOrder(Dependencies(comps'), order')
    requires forall m <- moments :: KeepsMemories(m)
    ensures SameRun(p, w, order, order', moments)
  {
    PermutationKeepsMembers(comps, comps');
    forall c | c in comps' ensures c in comps { assert c in SetOf(comps'); }
    BuiltIsSchedule(p, comps, w, order);
    BuiltIsSchedule(p, comps', w, order');
    ScheduleIsUnobservable(p, SetOf(comps), w, order, order', moments);
  }

  /** The order of the Add calls is unobservable: once Build succeeds with one, it succeeds with any other, and
      the systems built run alike. */
  lemma AddOrderIsUnobservable<S(!new), I(!new)>(
      p: Program<Component, S, I>, comps: seq<Component>, comps': seq<Component>, w: World<Component, S>,
      order: seq<Component>, moments: seq<Moment<Component, S, I>>)
    requires multiset(comps) == multiset(comps') && Fits(p, comps, w) && Accepts(comps)
    requires StableOrder(Dependencies(comps), order) && forall m <- moments :: KeepsMemories(m)
    ensures Accepts(comps') && Acyclic(Dependencies(comps'))
    ensures forall order' | StableOrder(Dependencies(comps'), order') :: SameRun(p, w, order, order', moments)
  {
    StableHasNoCycle(comps, order);
    SuccessIgnoresAddOrder(comps, comps');
    forall order' | StableOrder(Dependencies(comps'), order') ensures SameRun(p, w, order, order', moments) {
      BuiltOrdersRunAlike(p, comps, comps', w, order, order', moments);
    }
  }
}
