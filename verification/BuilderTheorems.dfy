/** What the builder's answer means, whatever was added and in whatever order. */
module BuilderTheorems {
  import opened Names
  import opened Ordering
  import opened Wiring
  import opened SimSystemBuilder

  /** The order handed out is topological and the lexicographically least such order by add index. */
  lemma BuildIsLeastTopologicalOrder(comps: seq<Component>, order: seq<Component>)
    requires Accepts(comps) && StableOrder(Dependencies(comps), order)
    ensures Topological(Dependencies(comps), order)
    ensures forall other :: Topological(Dependencies(comps), other) ==>
      order == other || LexBefore(comps, order, other)
  {
    var g := Dependencies(comps);
    StablePrefixMembers(g, order);
    StablePrefixIsForward(g, order);
    forall other | Topological(g, other) ensures order == other || LexBefore(comps, order, other) {
      StableIsLeast(g, order, other);
    }
  }

  /** For an acceptable list, Build succeeds exactly when some topological order exists. */
  lemma BuiltIffSortable(comps: seq<Component>, r: Result<seq<Component>>)
    requires Accepts(comps) && Answers(comps, r)
    ensures r.Ok? <==> exists order :: Topological(Dependencies(comps), order)
  {
    var g := Dependencies(comps);
    if r.Ok? {
      BuildIsLeastTopologicalOrder(comps, r.value);
    }
    forall order, c | Topological(g, order) && c in comps ensures !OnCycle(g, c) {
      TopologicalHasNoCycle(g, order, c);
    }
  }

  lemma TopologicalHasNoCycle<T(!new)>(g: Graph<T>, order: seq<T>, c: T)
    requires Topological(g, order)
    ensures !OnCycle(g, c)
  {
    forall p: seq<T> | IsPath(g, p) && |p| >= 2 && p[0] == c ensures p[|p| - 1] != c {
      PathClimbs(g, order, p);
    }
  }

  /** A list added in topological order is executed in that order. */
  lemma TopologicalAddOrderIsKept(comps: seq<Component>, order: seq<Component>)
    requires Topological(Dependencies(comps), comps) && StableOrder(Dependencies(comps), order)
    ensures order == comps
  {
    AddOrderIsKept(Dependencies(comps));
    StableIsUnique(Dependencies(comps), order, comps);
  }

  // ---------- Orders, by names alone ----------

  /** No component reads what a later one writes; what it writes itself it may read. */
  predicate WritersFirst(order: seq<Component>) {
    forall i, j | 0 <= i < j < |order| :: NamesOf(order[j].outputs) !! NamesOf(order[i].inputs)
  }

  /** The graph that is sorted says just this about an order. */
  lemma TopologicalIffWritersFirst(comps: seq<Component>, order: seq<Component>)
    ensures Topological(Dependencies(comps), order) <==> Arrangement(comps, order) && WritersFirst(order)
  {
    var g := Dependencies(comps);
    if Topological(g, order) {
      forall i, j | 0 <= i < j < |order| ensures NamesOf(order[j].outputs) !! NamesOf(order[i].inputs) {
        assert (order[j], order[i]) !in g.arrows;
      }
    }
    if Arrangement(comps, order) && WritersFirst(order) {
      forall i, j | 0 <= i <= j < |order| ensures (order[j], order[i]) !in g.arrows {
        assert i < j ==> NamesOf(order[j].outputs) !! NamesOf(order[i].inputs);
      }
    }
  }

  /** Build succeeds exactly when the list is acceptable and can be arranged with writers first; and it hands
      out the arrangement of that kind that is least by add index. */
  lemma BuiltIsWritersFirst(comps: seq<Component>, r: Result<seq<Component>>)
    requires Answers(comps, r)
    ensures r.Ok? <==> Accepts(comps) && exists order :: Arrangement(comps, order) && WritersFirst(order)
    ensures r.Ok? ==> Arrangement(comps, r.value) && WritersFirst(r.value)
    ensures r.Ok? ==> forall other :: Arrangement(comps, other) && WritersFirst(other) ==>
      r.value == other || LexBefore(comps, r.value, other)
  {
    forall order ensures Topological(Dependencies(comps), order) <==> Arrangement(comps, order) && WritersFirst(order) {
      TopologicalIffWritersFirst(comps, order);
    }
    if Accepts(comps) { BuiltIffSortable(comps, r); }
    if r.Ok? { BuildIsLeastTopologicalOrder(comps, r.value); }
  }

  // ---------- The order of Add calls ----------

  lemma PermutationKeepsMembers<T>(p: seq<T>, q: seq<T>)
    requires multiset(p) == multiset(q)
    ensures SetOf(p) == SetOf(q)
  {
    forall c | c in p ensures c in q { assert c in multiset(p); }
    forall c | c in q ensures c in p { assert c in multiset(q); }
  }

  lemma PermutationKeepsDistinct<T>(p: seq<T>, q: seq<T>)
    requires multiset(p) == multiset(q) && Distinct(p)
    ensures Distinct(q)
  {
    forall i, j | 0 <= i < j < |q| ensures q[i] != q[j] {
      if q[i] == q[j] {
        assert q == q[..i] + [q[i]] + q[i + 1..j] + [q[j]] + q[j + 1..];
        assert multiset(q)[q[i]] >= 2;
        OnlyOnce(p, q[i]);
      }
    }
  }

  lemma {:induction false} OnlyOnce<T>(p: seq<T>, x: T)
    requires Distinct(p)
    ensures multiset(p)[x] <= 1
  {
    if p != [] {
      var init, last := p[..|p| - 1], p[|p| - 1];
      assert p == init + [last];
      OnlyOnce(init, x);
    }
  }

  lemma CyclesIgnoreAddOrder(p: seq<Component>, q: seq<Component>)
    requires SetOf(p) == SetOf(q)
    ensures Dependencies(p).arrows == Dependencies(q).arrows
    ensures Acyclic(Dependencies(p)) ==> Acyclic(Dependencies(q))
  {
    var g, h := Dependencies(p), Dependencies(q);
    assert forall c :: c in p <==> c in SetOf(p);
    assert forall c :: c in q <==> c in SetOf(q);
    forall c | c in q && OnCycle(h, c) ensures OnCycle(g, c) {
      var path: seq<Component> :| IsPath(h, path) && |path| >= 2 && path[0] == c && path[|path| - 1] == c;
      assert IsPath(g, path);
    }
  }

  /** Whether Build succeeds does not depend on the order of the Add calls. */
  lemma SuccessIgnoresAddOrder(p: seq<Component>, q: seq<Component>)
    requires multiset(p) == multiset(q)
    ensures Accepts(p) && Acyclic(Dependencies(p)) <==> Accepts(q) && Acyclic(Dependencies(q))
  {
    PermutationKeepsMembers(p, q);
    AcceptsIsOrderFree(p);
    AcceptsIsOrderFree(q);
    if Distinct(p) { PermutationKeepsDistinct(p, q); }
    if Distinct(q) { PermutationKeepsDistinct(q, p); }
    CyclesIgnoreAddOrder(p, q);
    CyclesIgnoreAddOrder(q, p);
  }

  // ---------- Layered wiring ----------

  /** Component `k` of a layered list writes only signals of layer `k` and reads only lower layers and what it
      writes itself; each signal has one unit. */
  ghost predicate Layer(c: Component, k: nat, writer: string -> nat, unit: string -> string) {
    && c.id == k && CleanAlone(c)
    && (forall d <- c.outputs :: writer(d.name) == k && d.unit == unit(d.name))
    && (forall d <- c.inputs :: (writer(d.name) < k || d.name in NamesOf(c.outputs)) && d.unit == unit(d.name))
  }

  /** A layered list is accepted, and is in topological order as it stands. */
  lemma LayeredIsAccepted(comps: seq<Component>, writer: string -> nat, unit: string -> string)
    requires forall k | 0 <= k < |comps| :: Layer(comps[k], k, writer, unit)
    ensures Accepts(comps)
    ensures Topological(Dependencies(comps), comps)
  {
    forall c | c in comps ensures c.id < |comps| && comps[c.id] == c && Layer(c, c.id, writer, unit) {
      var k :| 0 <= k < |comps| && comps[k] == c;
    }
    assert AcceptsSet(SetOf(comps)) by {
      forall a, b, n | a in SetOf(comps) && b in SetOf(comps) && n in NamesOf(a.outputs) && n in NamesOf(b.outputs)
        ensures a == b
      {
        assert a.id == writer(n) == b.id;
      }
    }
    AcceptsIsOrderFree(comps);
    forall i, j | 0 <= i < j < |comps| ensures NamesOf(comps[j].outputs) !! NamesOf(comps[i].inputs) {
      assert Layer(comps[i], i, writer, unit) && Layer(comps[j], j, writer, unit);
      forall n | n in NamesOf(comps[j].outputs) ensures n !in NamesOf(comps[i].inputs) {
        assert writer(n) == j;
        assert n in NamesOf(comps[i].outputs) ==> writer(n) == i;
      }
    }
    TopologicalIffWritersFirst(comps, comps);
  }

  // ---------- One component twice ----------

  /** Adding one object twice never succeeds. The complaint is a second writer (or an earlier write
      fault) if the component writes anything; `ToDictionary` or a unit mismatch otherwise. */
  lemma AddedTwice(comps: seq<Component>, i: nat, j: nat, r: Result<seq<Component>>)
    requires i < j < |comps| && comps[i] == comps[j]
    requires Answers(comps, r)
    ensures r.Err?
    ensures r.Err? && comps[i].outputs != [] ==> r.error.BlankWrite? || r.error.MultipleWriters?
    ensures r.Err? && Clean(AllWrites(comps)) ==> r.error.UnitMismatch? || r.error.DuplicateComponent?
  {
    if comps[i].outputs != [] && Clean(AllWrites(comps)) {
      TwiceWritten(comps, i, j);
      assert false;
    }
    if Clean(AllWrites(comps)) && r.Err? && (r.error.BlankWrite? || r.error.MultipleWriters?) {
      WriteFaultIsUnclean(AllWrites(comps), r.error);
      assert false;
    }
  }

  lemma {:induction false} TwiceWritten(comps: seq<Component>, i: nat, j: nat)
    requires i < j < |comps| && comps[i] == comps[j] && comps[i].outputs != []
    ensures !Clean(AllWrites(comps))
  {
    var init, last := comps[..|comps| - 1], comps[|comps| - 1];
    var ws, own := AllWrites(init), Owned(last.outputs, last);
    assert AllWrites(comps) == ws + own;
    if j < |init| {
      TwiceWritten(init, i, j);
      var m, n :| 0 <= m < |ws| && (IsBlank(ws[m].name) || (m < n < |ws| && ws[m].name == ws[n].name));
      assert (ws + own)[m] == ws[m];
      if m < n < |ws| { assert (ws + own)[n] == ws[n]; }
    } else {
      DeclarationMembers(Writing, init);
      assert init[i] == last && last in init && Declares(Listed(Writing, last), own[0]);
      var k :| 0 <= k < |ws| && ws[k] == own[0];
      assert (ws + own)[k] == (ws + own)[|ws|];
    }
  }

  // ---------- Names that trimming would identify ----------

  /** No two components write one entry of the signal bus, which stores under the trimmed name. */
  ghost predicate WritersApart(trim: string -> string, comps: seq<Component>) {
    forall a, b, m, n | a in comps && b in comps && m in NamesOf(a.outputs) && n in NamesOf(b.outputs) ::
      trim(m) == trim(n) ==> a == b
  }

  ghost predicate WritesAmong(comps: seq<Component>, names: set<string>) {
    forall c <- comps :: NamesOf(c.outputs) <= names
  }

  ghost predicate Safe(trim: string -> string, names: set<string>) {
    forall comps :: Accepts(comps) && WritesAmong(comps, names) ==> WritersApart(trim, comps)
  }

  ghost predicate Injective(trim: string -> string, names: set<string>) {
    forall m, n :: m in names && n in names && trim(m) == trim(n) ==> m == n
  }

  lemma InjectiveIsSafe(trim: string -> string, names: set<string>)
    requires Injective(trim, names)
    ensures Safe(trim, names)
  {
    forall comps | Accepts(comps) && WritesAmong(comps, names) ensures WritersApart(trim, comps) {
      CleanGivesSingleWriter(comps);
    }
  }

  function Writer(id: nat, n: string): (c: Component)
    ensures n in NamesOf(c.outputs)
  {
    var d := SignalDependency(n, "PressurePsi");
    assert d in [d] && d.name == n;
    Component(id, "Writer", [], [d])
  }

  /** The single-writer check compares names as declared, so two writers of any two names pass it. */
  lemma TwoNamesPass(m: string, n: string)
    requires m != n && !IsBlank(m) && !IsBlank(n)
    ensures Accepts([Writer(0, m), Writer(1, n)])
  {
    TwoWritersAccepted(Writer(0, m), Writer(1, n));
  }

  lemma TwoNamesCollide(trim: string -> string, names: set<string>, m: string, n: string)
    requires m in names && n in names && m != n && trim(m) == trim(n) && !IsBlank(m) && !IsBlank(n)
    ensures !Safe(trim, names)
  {
    var a, b := Writer(0, m), Writer(1, n);
    TwoNamesPass(m, n);
    WritesOne(0, m);
    WritesOne(1, n);
    assert a.id != b.id && a in [a, b] && b in [a, b];
    assert WritesAmong([a, b], names);
    assert !WritersApart(trim, [a, b]);
  }

  lemma WritesOne(id: nat, n: string)
    ensures NamesOf(Writer(id, n).outputs) == {n}
  {
  }

  /** A set of names is safe to declare, whatever accepted components declare them, exactly if trimming keeps
      them apart. */
  lemma SafeIffInjective(trim: string -> string, names: set<string>)
    requires forall n <- names :: !IsBlank(n)
    ensures Safe(trim, names) <==> Injective(trim, names)
  {
    if Injective(trim, names) {
      InjectiveIsSafe(trim, names);
    } else {
      var m, n :| m in names && n in names && trim(m) == trim(n) && m != n;
      TwoNamesCollide(trim, names, m, n);
    }
  }

  /** The same for the bus's own `Trim`. */
  lemma NamesAreSafeIff(names: set<string>)
    requires forall n <- names :: !IsBlank(n)
    ensures Safe(Trim, names) <==> Injective(Trim, names)
  {
    SafeIffInjective(Trim, names);
  }

  /** A name with white space behind it is the same name to the bus. */
  lemma PaddingIsTrimmed(n: string, c: char)
    requires IsTrimmed(n) && IsWhite(c)
    ensures Trim(n) == Trim(n + [c]) == n && !IsBlank(n) && !IsBlank(n + [c])
  {
    TrimFixed(n);
    var padded := n + [c];
    assert padded[0] == n[0] && padded[|padded| - 1] == c && padded[..|padded| - 1] == n;
    assert TrimStart(padded) == padded && TrimStart(n) == n;
    assert TrimEnd(padded) == TrimEnd(n);
  }

  /** So a name and its padded form may not both be declared: two accepted writers would share an entry. */
  lemma PaddedNamesAreUnsafe(n: string, c: char)
    requires IsTrimmed(n) && IsWhite(c)
    ensures !Safe(Trim, {n, n + [c]})
  {
    PaddingIsTrimmed(n, c);
    assert |n| != |n + [c]|;
    TwoNamesCollide(Trim, {n, n + [c]}, n, n + [c]);
  }

  lemma TwoWritersAccepted(a: Component, b: Component)
    requires a.inputs == b.inputs == [] && |a.outputs| == |b.outputs| == 1 && a != b
    requires !IsBlank(a.outputs[0].name) && !IsBlank(b.outputs[0].name)
    requires a.outputs[0].name != b.outputs[0].name
    ensures Accepts([a, b])
  {
    PairDeclarations(Writing, a, b);
    PairDeclarations(Reading, a, b);
  }

  lemma PairDeclarations(side: Side, a: Component, b: Component)
    ensures Declarations(side, [a, b]) == Owned(Listed(side, a), a) + Owned(Listed(side, b), b)
  {
    assert [a, b][..1] == [a];
    assert [a][..0] == [];
    assert Declarations(side, [a]) == Declarations(side, []) + Owned(Listed(side, a), a);
  }
}
