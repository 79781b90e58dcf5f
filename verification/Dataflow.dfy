/** What a tick means. Each component maps its memory, the tick's inputs and the bus to new memory and
    bus entries. A tick runs the components one after another; this module shows that the result is the
    one solution of the components' simultaneous equations, so that the order is unobservable. */
module Dataflow {
  import opened Ordering

  type Bus = map<string, real>

  type Parameters = map<string, real>

  /** A signal or parameter that is there; the zero stands for an exception that cannot arise. */
  function Read(m: map<string, real>, n: string): real { if n in m then m[n] else 0.0 }

  datatype Effect<S> = Effect(memory: S, outputs: Bus)

  /** Components `T` with memory `S`; `I` is what a tick takes from outside the bus (parameters, time). */
  datatype Program<!T, !S, !I> = Program(
    inputs: T -> set<string>,
    outputs: T -> set<string>,
    step: (T, S, I, Bus) -> Effect<S>)

  datatype World<T(==), S> = World(bus: Bus, memory: map<T, S>)

  // ---------- Sequential execution ----------

  function TickOne<T(==), S, I>(p: Program<T, S, I>, input: I, w: World<T, S>, c: T): World<T, S>
    requires c in w.memory
  {
    var e := p.step(c, w.memory[c], input, w.bus);
    World(w.bus + e.outputs, w.memory[c := e.memory])
  }

  /** One tick: every component once, in the given order. */
  function TickAll<T(==), S, I>(p: Program<T, S, I>, input: I, w: World<T, S>, order: seq<T>): (w': World<T, S>)
    requires forall c <- order :: c in w.memory
    ensures w'.memory.Keys == w.memory.Keys
  {
    if order == [] then w else
      TickOne(p, input, TickAll(p, input, w, order[..|order| - 1]), order[|order| - 1])
  }

  // ---------- Components that keep to their declarations ----------

  predicate SameAt(n: string, a: Bus, b: Bus) {
    (n in a <==> n in b) && (n in a && n in b ==> a[n] == b[n])
  }

  ghost predicate Agree(a: Bus, b: Bus, names: set<string>) {
    forall n <- names :: SameAt(n, a, b)
  }

  /** `c` writes no undeclared signal, and no undeclared signal can make a difference to it. */
  ghost predicate Honest<T(!new), S(!new), I(!new)>(p: Program<T, S, I>, c: T) {
    && (forall s, i, b :: p.step(c, s, i, b).outputs.Keys <= p.outputs(c))
    && (forall s, i, a, b :: Agree(a, b, p.inputs(c)) ==> p.step(c, s, i, a) == p.step(c, s, i, b))
  }

  ghost predicate Arrow<T(!new), S, I>(p: Program<T, S, I>, a: T, b: T) {
    a != b && exists n :: n in p.outputs(a) && n in p.inputs(b)
  }

  ghost predicate OneWriter<T(!new), S, I>(p: Program<T, S, I>, nodes: set<T>) {
    forall a, b, n :: a in nodes && b in nodes && n in p.outputs(a) && n in p.outputs(b) ==> a == b
  }

  /** `order` lists the nodes once each, writers before readers. */
  ghost predicate Schedule<T(!new), S, I>(p: Program<T, S, I>, nodes: set<T>, order: seq<T>) {
    && Distinct(order) && SetOf(order) == nodes
    && forall i, j | 0 <= i < j < |order| :: !Arrow(p, order[j], order[i])
  }

  ghost predicate WellFormed<T(!new), S(!new), I(!new)>(p: Program<T, S, I>, nodes: set<T>, w: World<T, S>) {
    && OneWriter(p, nodes)
    && (forall c <- nodes :: Honest(p, c) && c in w.memory)
  }

  /** Buses that agree on some names read alike under them. */
  lemma ReadsAgree(a: Bus, b: Bus, names: set<string>)
    requires Agree(a, b, names)
    ensures forall n <- names :: Read(a, n) == Read(b, n)
  {
    forall n | n in names ensures Read(a, n) == Read(b, n) { assert SameAt(n, a, b); }
  }

  // ---------- The equations ----------

  /** What a component sees: the old value of what it writes itself, the new value of all else. */
  function View(before: Bus, after: Bus, own: set<string>): Bus {
    (after - own) + map n | n in before && n in own :: before[n]
  }

  ghost predicate Written<T(!new), S, I>(p: Program<T, S, I>, nodes: set<T>, n: string) {
    exists c :: c in nodes && n in p.outputs(c)
  }

  /** The equation of one component: from its old memory and its view, its new memory and its signals;
      a declared signal that it does not set keeps its value. */
  ghost predicate Satisfies<T(!new), S, I>(p: Program<T, S, I>, c: T, input: I, w: World<T, S>, w': World<T, S>)
    requires c in w.memory
  {
    var e := p.step(c, w.memory[c], input, View(w.bus, w'.bus, p.outputs(c)));
    && c in w'.memory && w'.memory[c] == e.memory
    && forall n <- p.outputs(c) :: SameAt(n, w'.bus, if n in e.outputs then e.outputs else w.bus)
  }

  ghost predicate Solves<T(!new), S, I>(p: Program<T, S, I>, nodes: set<T>, input: I, w: World<T, S>, w': World<T, S>)
    requires forall c <- nodes :: c in w.memory
  {
    && w'.memory.Keys == w.memory.Keys
    && (forall c <- nodes :: Satisfies(p, c, input, w, w'))
    && (forall c <- w.memory.Keys - nodes :: w'.memory[c] == w.memory[c])
    && (forall n :: !Written(p, nodes, n) ==> SameAt(n, w'.bus, w.bus))
  }

  // ---------- Nothing is touched behind a component's back ----------

  ghost function After<T(!new), S, I>(p: Program<T, S, I>, input: I, w: World<T, S>, order: seq<T>, k: nat): World<T, S>
    requires k <= |order| && forall c <- order :: c in w.memory
  {
    TickAll(p, input, w, order[..k])
  }

  lemma AfterStep<T(!new), S, I>(p: Program<T, S, I>, input: I, w: World<T, S>, order: seq<T>, k: nat)
    requires k < |order| && forall c <- order :: c in w.memory
    ensures order[k] in After(p, input, w, order, k).memory
    ensures After(p, input, w, order, k + 1) == TickOne(p, input, After(p, input, w, order, k), order[k])
  {
    assert order[..k + 1][..k] == order[..k];
    assert order[k] in order;
  }

  lemma {:induction false} BusUntouched<T(!new), S(!new), I(!new)>(
      p: Program<T, S, I>, input: I, w: World<T, S>, order: seq<T>, j: nat, k: nat, n: string)
    requires j <= k <= |order| && forall c <- order :: Honest(p, c) && c in w.memory
    requires forall m | j <= m < k :: n !in p.outputs(order[m])
    ensures SameAt(n, After(p, input, w, order, j).bus, After(p, input, w, order, k).bus)
  {
    if j < k {
      BusUntouched(p, input, w, order, j, k - 1, n);
      AfterStep(p, input, w, order, k - 1);
      var v := After(p, input, w, order, k - 1);
      assert n !in p.outputs(order[k - 1]) && Honest(p, order[k - 1]);
      assert n !in p.step(order[k - 1], v.memory[order[k - 1]], input, v.bus).outputs;
    }
  }

  lemma {:induction false} MemoryUntouched<T(!new), S, I>(
      p: Program<T, S, I>, input: I, w: World<T, S>, order: seq<T>, j: nat, k: nat, c: T)
    requires j <= k <= |order| && (forall d <- order :: d in w.memory) && c in w.memory
    requires forall m | j <= m < k :: order[m] != c
    ensures After(p, input, w, order, j).memory[c] == After(p, input, w, order, k).memory[c]
  {
    if j < k {
      MemoryUntouched(p, input, w, order, j, k - 1, c);
      AfterStep(p, input, w, order, k - 1);
    }
  }

  // ---------- A tick solves the equations ----------

  lemma ScheduleIndex<T(!new), S, I>(p: Program<T, S, I>, nodes: set<T>, order: seq<T>)
    requires Schedule(p, nodes, order)
    ensures forall c :: c in order <==> c in nodes
  {
    assert forall c :: c in order <==> c in SetOf(order);
  }

  /** Where the component at `j` looks, the bus it finds is its view of the final bus. */
  lemma SeesItsView<T(!new), S(!new), I(!new)>(
      p: Program<T, S, I>, nodes: set<T>, input: I, w: World<T, S>, order: seq<T>, j: nat, n: string)
    requires WellFormed(p, nodes, w) && Schedule(p, nodes, order) && j < |order| && n in p.inputs(order[j])
    requires forall c :: c in order <==> c in nodes
    ensures SameAt(n, After(p, input, w, order, j).bus,
                   View(w.bus, After(p, input, w, order, |order|).bus, p.outputs(order[j])))
  {
    var c := order[j];
    assert After(p, input, w, order, 0) == w;
    if n in p.outputs(c) {
      assert forall m | 0 <= m < j :: order[m] in nodes && order[m] != c;
      BusUntouched(p, input, w, order, 0, j, n);
    } else {
      forall m | j <= m < |order| ensures n !in p.outputs(order[m]) {
        if m != j { assert !Arrow(p, order[m], c) && order[m] != c; }
      }
      BusUntouched(p, input, w, order, j, |order|, n);
    }
  }

  lemma ComponentSatisfied<T(!new), S(!new), I(!new)>(
      p: Program<T, S, I>, nodes: set<T>, input: I, w: World<T, S>, order: seq<T>, j: nat)
    requires WellFormed(p, nodes, w) && Schedule(p, nodes, order) && j < |order|
    requires forall c :: c in order <==> c in nodes
    ensures order[j] in w.memory
    ensures Satisfies(p, order[j], input, w, After(p, input, w, order, |order|))
  {
    var c, final := order[j], After(p, input, w, order, |order|);
    assert c in nodes;
    var here, view := After(p, input, w, order, j), View(w.bus, final.bus, p.outputs(c));
    assert After(p, input, w, order, 0) == w;
    forall n | n in p.inputs(c) ensures SameAt(n, here.bus, view) {
      SeesItsView(p, nodes, input, w, order, j, n);
    }
    assert Agree(here.bus, view, p.inputs(c)) && Honest(p, c);
    MemoryUntouched(p, input, w, order, 0, j, c);
    MemoryUntouched(p, input, w, order, j + 1, |order|, c);
    AfterStep(p, input, w, order, j);
    forall n | n in p.outputs(c)
      ensures && SameAt(n, w.bus, here.bus)
              && SameAt(n, After(p, input, w, order, j + 1).bus, final.bus)
    {
      assert forall m | 0 <= m < |order| && m != j :: order[m] in nodes && order[m] != c && n !in p.outputs(order[m]);
      BusUntouched(p, input, w, order, 0, j, n);
      BusUntouched(p, input, w, order, j + 1, |order|, n);
    }
  }

  /** Run along any schedule, a tick solves the simultaneous equations. */
  lemma TickSolves<T(!new), S(!new), I(!new)>(
      p: Program<T, S, I>, nodes: set<T>, input: I, w: World<T, S>, order: seq<T>)
    requires WellFormed(p, nodes, w) && Schedule(p, nodes, order)
    ensures forall c <- order :: c in w.memory
    ensures Solves(p, nodes, input, w, TickAll(p, input, w, order))
  {
    ScheduleIndex(p, nodes, order);
    var w' := TickAll(p, input, w, order);
    assert order[..|order|] == order && order[..0] == [];
    assert After(p, input, w, order, |order|) == w' && After(p, input, w, order, 0) == w;
    forall c | c in nodes ensures Satisfies(p, c, input, w, w') {
      var j :| 0 <= j < |order| && order[j] == c;
      ComponentSatisfied(p, nodes, input, w, order, j);
    }
    forall c | c in w.memory.Keys - nodes ensures w'.memory[c] == w.memory[c] {
      MemoryUntouched(p, input, w, order, 0, |order|, c);
    }
    forall n | !Written(p, nodes, n) ensures SameAt(n, w'.bus, w.bus) {
      assert forall m | 0 <= m < |order| :: order[m] in nodes;
      BusUntouched(p, input, w, order, 0, |order|, n);
    }
  }

  // ---------- There is no other solution ----------

  ghost predicate AgreeOn<T(!new), S, I>(p: Program<T, S, I>, c: T, a: World<T, S>, b: World<T, S>) {
    && c in a.memory && c in b.memory && a.memory[c] == b.memory[c]
    && Agree(a.bus, b.bus, p.outputs(c))
  }

  /** If two solutions agree on all that stands before `order[j]`, they agree on `order[j]`. */
  lemma NextAgrees<T(!new), S(!new), I(!new)>(
      p: Program<T, S, I>, nodes: set<T>, input: I, w: World<T, S>, order: seq<T>,
      a: World<T, S>, b: World<T, S>, j: nat)
    requires WellFormed(p, nodes, w) && Schedule(p, nodes, order) && j < |order|
    requires forall c :: c in order <==> c in nodes
    requires Solves(p, nodes, input, w, a) && Solves(p, nodes, input, w, b)
    requires forall m | 0 <= m < j :: AgreeOn(p, order[m], a, b)
    ensures AgreeOn(p, order[j], a, b)
  {
    var c := order[j];
    assert c in nodes;
    var va, vb := View(w.bus, a.bus, p.outputs(c)), View(w.bus, b.bus, p.outputs(c));
    forall n | n in p.inputs(c) ensures SameAt(n, va, vb) {
      if n !in p.outputs(c) && Written(p, nodes, n) {
        var u :| u in nodes && n in p.outputs(u);
        var m :| 0 <= m < |order| && order[m] == u;
        assert Arrow(p, u, c) && m < j;
        assert AgreeOn(p, order[m], a, b);
      }
    }
    assert Agree(va, vb, p.inputs(c)) && Honest(p, c);
    assert Satisfies(p, c, input, w, a) && Satisfies(p, c, input, w, b);
  }

  lemma {:induction false} AllAgree<T(!new), S(!new), I(!new)>(
      p: Program<T, S, I>, nodes: set<T>, input: I, w: World<T, S>, order: seq<T>,
      a: World<T, S>, b: World<T, S>, k: nat)
    requires WellFormed(p, nodes, w) && Schedule(p, nodes, order) && k <= |order|
    requires forall c :: c in order <==> c in nodes
    requires Solves(p, nodes, input, w, a) && Solves(p, nodes, input, w, b)
    ensures forall m | 0 <= m < k :: AgreeOn(p, order[m], a, b)
  {
    if k > 0 {
      AllAgree(p, nodes, input, w, order, a, b, k - 1);
      NextAgrees(p, nodes, input, w, order, a, b, k - 1);
    }
  }

  lemma SameEverywhere(a: Bus, b: Bus)
    requires forall n :: SameAt(n, a, b)
    ensures a == b
  {
    assert a.Keys == b.Keys by {
      forall n | n in a ensures n in b { assert SameAt(n, a, b); }
      forall n | n in b ensures n in a { assert SameAt(n, a, b); }
    }
    forall n | n in a ensures a[n] == b[n] { assert SameAt(n, a, b); }
  }

  /** The equations have at most one solution, once the components can be scheduled at all. */
  lemma SolutionIsUnique<T(!new), S(!new), I(!new)>(
      p: Program<T, S, I>, nodes: set<T>, input: I, w: World<T, S>, order: seq<T>, a: World<T, S>, b: World<T, S>)
    requires WellFormed(p, nodes, w) && Schedule(p, nodes, order)
    requires Solves(p, nodes, input, w, a) && Solves(p, nodes, input, w, b)
    ensures a == b
  {
    ScheduleIndex(p, nodes, order);
    AllAgree(p, nodes, input, w, order, a, b, |order|);
    forall n ensures SameAt(n, a.bus, b.bus) {
      if Written(p, nodes, n) {
        var c :| c in nodes && n in p.outputs(c);
        var m :| 0 <= m < |order| && order[m] == c;
        assert AgreeOn(p, order[m], a, b);
      } else {
        assert SameAt(n, a.bus, w.bus) && SameAt(n, b.bus, w.bus);
      }
    }
    SameEverywhere(a.bus, b.bus);
    forall c | c in w.memory ensures a.memory[c] == b.memory[c] {
      if c in nodes {
        var m :| 0 <= m < |order| && order[m] == c;
        assert AgreeOn(p, order[m], a, b);
      } else {
        assert c in w.memory.Keys - nodes;
      }
    }
  }

  /** A tick computes the one solution: the equations characterise it. */
  lemma TickIsTheSolution<T(!new), S(!new), I(!new)>(
      p: Program<T, S, I>, nodes: set<T>, input: I, w: World<T, S>, order: seq<T>, w': World<T, S>)
    requires WellFormed(p, nodes, w) && Schedule(p, nodes, order)
    ensures forall c <- order :: c in w.memory
    ensures Solves(p, nodes, input, w, w') <==> w' == TickAll(p, input, w, order)
  {
    TickSolves(p, nodes, input, w, order);
    if Solves(p, nodes, input, w, w') {
      SolutionIsUnique(p, nodes, input, w, order, w', TickAll(p, input, w, order));
    }
  }

  // ---------- Whole runs ----------

  /** What happens between two ticks, and what the next tick takes from outside. */
  datatype Moment<!T(==), !S, I> = Moment(edit: World<T, S> -> World<T, S>, input: I)

  /** Edits between ticks may rewrite the world as they please, but keep every component's memory. */
  ghost predicate KeepsMemories<T(!new), S(!new), I>(m: Moment<T, S, I>) {
    forall w :: m.edit(w).memory.Keys == w.memory.Keys
  }

  ghost function Run<T(!new), S(!new), I(!new)>(
      p: Program<T, S, I>, w: World<T, S>, order: seq<T>, moments: seq<Moment<T, S, I>>): (w': World<T, S>)
    requires (forall c <- order :: c in w.memory) && forall m <- moments :: KeepsMemories(m)
    ensures w'.memory.Keys == w.memory.Keys
  {
    if moments == [] then w else
      var last := moments[|moments| - 1];
      var before := Run(p, w, order, moments[..|moments| - 1]);
      assert KeepsMemories(last);
      TickAll(p, last.input, last.edit(before), order)
  }

  /** Any two schedules give identical signals and memories after every run with the same edits. */
  lemma {:induction false} ScheduleIsUnobservable<T(!new), S(!new), I(!new)>(
      p: Program<T, S, I>, nodes: set<T>, w: World<T, S>, a: seq<T>, b: seq<T>, moments: seq<Moment<T, S, I>>)
    requires WellFormed(p, nodes, w) && Schedule(p, nodes, a) && Schedule(p, nodes, b)
    requires forall m <- moments :: KeepsMemories(m)
    ensures (forall c <- a :: c in w.memory) && (forall c <- b :: c in w.memory)
    ensures Run(p, w, a, moments) == Run(p, w, b, moments)
  {
    ScheduleIndex(p, nodes, a);
    ScheduleIndex(p, nodes, b);
    if moments != [] {
      var init, last := moments[..|moments| - 1], moments[|moments| - 1];
      ScheduleIsUnobservable(p, nodes, w, a, b, init);
      assert KeepsMemories(last);
      var v := last.edit(Run(p, w, a, init));
      TickSolves(p, nodes, last.input, v, a);
      TickIsTheSolution(p, nodes, last.input, v, b, TickAll(p, last.input, v, a));
    }
  }
}
