/** The system builder: declaration checks, the dependency table and the stable form of Kahn's algorithm. */
module SimSystemBuilder {
  import opened Adjacency
  import opened Names
  import opened Ordering
  import opened StableKahn
  import opened Wiring

  datatype BuildError =
    | BlankWrite(component: Component)
    | MultipleWriters(signal: string, first: Component, second: Component)
    | UnitMismatch(signal: string, writer: Component, reader: Component)
    | DuplicateComponent
    | DependencyCycle(components: set<Component>)

  datatype Result<+T> = Ok(value: T) | Err(error: BuildError)

  datatype Writer = Writer(unit: string, component: Component)

  /** The writer table holds exactly the declarations met so far. */
  ghost predicate TableOf(ws: seq<Declaration>, table: map<string, Writer>) {
    && (forall d <- ws :: d.name in table && table[d.name] == Writer(d.unit, d.owner))
    && (forall n <- table :: Declaration(n, table[n].unit, table[n].component) in ws)
  }

  /** The first offending write declaration, and what is wrong with it. */
  ghost predicate WriteFault(ws: seq<Declaration>, e: BuildError) {
    exists k | 0 <= k < |ws| ::
      && Clean(ws[..k])
      && if IsBlank(ws[k].name) then e == BlankWrite(ws[k].owner)
         else exists j | 0 <= j < k ::
           ws[j].name == ws[k].name && e == MultipleWriters(ws[k].name, ws[j].owner, ws[k].owner)
  }

  /** The first read whose unit differs from its writer's. */
  ghost predicate UnitFault(ws: seq<Declaration>, rs: seq<Declaration>, e: BuildError) {
    exists k, j | 0 <= k < |rs| && 0 <= j < |ws| ::
      && UnitsAgree(ws, rs[..k])
      && ws[j].name == rs[k].name && ws[j].unit != rs[k].unit
      && e == UnitMismatch(rs[k].name, ws[j].owner, rs[k].owner)
  }

  lemma TableGrows(seen: seq<Declaration>, d: Declaration, t: map<string, Writer>)
    requires Clean(seen) && TableOf(seen, t) && !IsBlank(d.name) && d.name !in t
    ensures Clean(seen + [d]) && TableOf(seen + [d], t[d.name := Writer(d.unit, d.owner)])
  {
    assert forall e <- seen :: e.name != d.name;
    assert forall k | 0 <= k < |seen| :: seen[k] in seen;
  }

  lemma SecondWriter(ws: seq<Declaration>, k: nat, t: map<string, Writer>)
    requires k < |ws| && Clean(ws[..k]) && TableOf(ws[..k], t) && !IsBlank(ws[k].name) && ws[k].name in t
    ensures WriteFault(ws, MultipleWriters(ws[k].name, t[ws[k].name].component, ws[k].owner))
  {
    var n := ws[k].name;
    var j :| 0 <= j < k && ws[..k][j] == Declaration(n, t[n].unit, t[n].component);
    assert ws[j].name == n;
  }

  /** The write declarations of component `i`, after those of the components before it. */
  method RegisterComponent(comps: seq<Component>, i: nat, table: map<string, Writer>)
    returns (r: Result<map<string, Writer>>)
    requires i < |comps| && Clean(AllWrites(comps[..i])) && TableOf(AllWrites(comps[..i]), table)
    ensures r.Ok? ==> Clean(AllWrites(comps[..i + 1])) && TableOf(AllWrites(comps[..i + 1]), r.value)
    ensures r.Err? ==> WriteFault(AllWrites(comps), r.error)
  {
    var component, t := comps[i], table;
    SeenStart(Writing, comps, i);
    for k := 0 to |component.outputs|
      invariant Clean(Seen(Writing, comps, i, k)) && TableOf(Seen(Writing, comps, i, k), t)
    {
      var write := component.outputs[k];
      ghost var seen := Seen(Writing, comps, i, k);
      SeenNext(Writing, comps, i, k);
      if IsBlank(write.name) {
        return Err(BlankWrite(component));
      }
      if write.name in t {
        SecondWriter(AllWrites(comps), |seen|, t);
        return Err(MultipleWriters(write.name, t[write.name].component, component));
      }
      TableGrows(seen, Declaration(write.name, write.unit, component), t);
      t := t[write.name := Writer(write.unit, component)];
    }
    SeenIsPrefix(Writing, comps, i, |component.outputs|);
    return Ok(t);
  }

  /** The first nested loop: blank names, second writers, and otherwise the writer table. */
  method RegisterWriters(comps: seq<Component>) returns (r: Result<map<string, Writer>>)
    ensures r.Ok? ==> Clean(AllWrites(comps)) && TableOf(AllWrites(comps), r.value)
    ensures r.Err? ==> WriteFault(AllWrites(comps), r.error)
  {
    r := Ok(map[]);
    for i := 0 to |comps|
      invariant r.Ok? && Clean(AllWrites(comps[..i])) && TableOf(AllWrites(comps[..i]), r.value)
    {
      r := RegisterComponent(comps, i, r.value);
      if r.Err? { return; }
    }
    assert comps[..|comps|] == comps;
  }

  // ---------- Edges ----------

  /** The arrow that one read gives rise to: none for an external signal, none for a self-read. */
  function ArrowOf(table: map<string, Writer>, d: Declaration): set<(Component, Component)> {
    if d.name in table && table[d.name].component != d.owner then {(table[d.name].component, d.owner)} else {}
  }

  function Arrows(table: map<string, Writer>, rs: seq<Declaration>): set<(Component, Component)> {
    if rs == [] then {} else Arrows(table, rs[..|rs| - 1]) + ArrowOf(table, rs[|rs| - 1])
  }

  predicate UnitFits(table: map<string, Writer>, d: Declaration) {
    d.name in table ==> table[d.name].unit == d.unit
  }

  /** The dictionaries after some reads, all of them with fitting units. */
  ghost predicate EdgesSoFar(comps: seq<Component>, table: map<string, Writer>, rs: seq<Declaration>,
                             t: Tables<Component>) {
    TablesHold(SetOf(comps), Arrows(table, rs), t) && forall d <- rs :: UnitFits(table, d)
  }

  /** A read adds its arrow, if it has one, to the dictionaries. */
  lemma EdgesStep(comps: seq<Component>, table: map<string, Writer>, rs: seq<Declaration>, d: Declaration,
                  t: Tables<Component>)
    requires EdgesSoFar(comps, table, rs, t)
    ensures Arrows(table, rs + [d]) == Arrows(table, rs) + ArrowOf(table, d)
    ensures ArrowOf(table, d) == {} ==> Arrows(table, rs + [d]) == Arrows(table, rs)
    ensures UnitFits(table, d) ==> forall e <- rs + [d] :: UnitFits(table, e)
  {
    assert (rs + [d])[..|rs|] == rs;
  }

  /** One read whose unit fits. */
  method ConnectRead(comps: seq<Component>, table: map<string, Writer>, d: Declaration, t: Tables<Component>,
                     ghost rs: seq<Declaration>)
    returns (t': Tables<Component>)
    requires d.owner in comps && (forall n <- table :: table[n].component in comps)
    requires EdgesSoFar(comps, table, rs, t) && UnitFits(table, d)
    ensures EdgesSoFar(comps, table, rs + [d], t')
  {
    t' := t;
    EdgesStep(comps, table, rs, d, t);
    if d.name in table {
      var writer := table[d.name].component;
      if writer != d.owner {
        t' := Connect(t, writer, d.owner, SetOf(comps), Arrows(table, rs));
      }
    }
  }

  /** Read `k` of component `i`. */
  method ConnectAt(comps: seq<Component>, i: nat, k: nat, table: map<string, Writer>, t: Tables<Component>)
    returns (r: Result<Tables<Component>>)
    requires i < |comps| && k < |comps[i].inputs| && TableOf(AllWrites(comps), table)
    requires forall n <- table :: table[n].component in comps
    requires EdgesSoFar(comps, table, Seen(Reading, comps, i, k), t)
    ensures r.Ok? ==> EdgesSoFar(comps, table, Seen(Reading, comps, i, k + 1), r.value)
    ensures r.Err? ==> UnitFault(AllWrites(comps), AllReads(comps), r.error)
  {
    var reader, read := comps[i], comps[i].inputs[k];
    SeenNext(Reading, comps, i, k);
    if read.name in table && table[read.name].unit != read.unit {
      MismatchIsUnitFault(comps, table, |Seen(Reading, comps, i, k)|);
      return Err(UnitMismatch(read.name, table[read.name].component, reader));
    }
    var t' := ConnectRead(comps, table, Declaration(read.name, read.unit, reader), t, Seen(Reading, comps, i, k));
    return Ok(t');
  }

  /** The reads of component `i`, after those of the components before it. */
  method ConnectComponent(comps: seq<Component>, i: nat, table: map<string, Writer>, t: Tables<Component>)
    returns (r: Result<Tables<Component>>)
    requires i < |comps| && TableOf(AllWrites(comps), table)
    requires forall n <- table :: table[n].component in comps
    requires EdgesSoFar(comps, table, AllReads(comps[..i]), t)
    ensures r.Ok? ==> EdgesSoFar(comps, table, AllReads(comps[..i + 1]), r.value)
    ensures r.Err? ==> UnitFault(AllWrites(comps), AllReads(comps), r.error)
  {
    r := Ok(t);
    SeenStart(Reading, comps, i);
    var k := 0;
    while k < |comps[i].inputs| && r.Ok?
      invariant k <= |comps[i].inputs|
      invariant r.Ok? ==> EdgesSoFar(comps, table, Seen(Reading, comps, i, k), r.value)
      invariant r.Err? ==> UnitFault(AllWrites(comps), AllReads(comps), r.error)
    {
      r := ConnectAt(comps, i, k, table, r.value);
      k := k + 1;
    }
    if r.Ok? {
      SeenIsPrefix(Reading, comps, i, k);
    }
  }

  /** The second nested loop: unit checks, then the writer-to-reader tables. */
  method BuildEdges(comps: seq<Component>, table: map<string, Writer>) returns (r: Result<Tables<Component>>)
    requires Clean(AllWrites(comps)) && TableOf(AllWrites(comps), table)
    ensures r.Ok? ==> UnitsAgree(AllWrites(comps), AllReads(comps))
    ensures r.Ok? ==> TablesHold(SetOf(comps), Dependencies(comps).arrows, r.value)
    ensures r.Err? ==> UnitFault(AllWrites(comps), AllReads(comps), r.error)
  {
    WritersAreMembers(comps, table);
    var t := EmptyTables(comps);
    r := Ok(t);
    for i := 0 to |comps|
      invariant r.Ok? && EdgesSoFar(comps, table, AllReads(comps[..i]), r.value)
    {
      r := ConnectComponent(comps, i, table, r.value);
      if r.Err? { return; }
    }
    assert comps[..|comps|] == comps;
    ArrowsAreDependencies(comps, table);
    FittingUnitsAgree(comps, table);
  }

  lemma WritersAreMembers(comps: seq<Component>, table: map<string, Writer>)
    requires TableOf(AllWrites(comps), table)
    ensures forall n <- table :: table[n].component in comps && n in NamesOf(table[n].component.outputs)
  {
    DeclarationMembers(Writing, comps);
    forall n | n in table ensures table[n].component in comps && n in NamesOf(table[n].component.outputs) {
      var d := Declaration(n, table[n].unit, table[n].component);
      assert Declares(d.owner.outputs, d);
      assert SignalDependency(n, d.unit) in d.owner.outputs;
    }
  }

  lemma MismatchIsUnitFault(comps: seq<Component>, table: map<string, Writer>, k: nat)
    requires TableOf(AllWrites(comps), table)
    requires k < |AllReads(comps)| && forall d <- AllReads(comps)[..k] :: UnitFits(table, d)
    requires var d := AllReads(comps)[k]; d.name in table && table[d.name].unit != d.unit
    ensures var d := AllReads(comps)[k];
      UnitFault(AllWrites(comps), AllReads(comps), UnitMismatch(d.name, table[d.name].component, d.owner))
  {
    var ws, rs := AllWrites(comps), AllReads(comps);
    var w := Declaration(rs[k].name, table[rs[k].name].unit, table[rs[k].name].component);
    var j :| 0 <= j < |ws| && ws[j] == w;
    forall i, m | 0 <= i < |ws| && 0 <= m < k && ws[i].name == rs[..k][m].name ensures ws[i].unit == rs[..k][m].unit {
      assert ws[i] in ws && UnitFits(table, rs[..k][m]);
    }
    assert UnitsAgree(ws, rs[..k]);
  }

  lemma FittingUnitsAgree(comps: seq<Component>, table: map<string, Writer>)
    requires TableOf(AllWrites(comps), table) && forall d <- AllReads(comps) :: UnitFits(table, d)
    ensures UnitsAgree(AllWrites(comps), AllReads(comps))
  {
    var ws, rs := AllWrites(comps), AllReads(comps);
    forall i, m | 0 <= i < |ws| && 0 <= m < |rs| && ws[i].name == rs[m].name ensures ws[i].unit == rs[m].unit {
      assert ws[i] in ws && UnitFits(table, rs[m]);
    }
  }

  lemma {:induction false} ArrowsMembers(table: map<string, Writer>, rs: seq<Declaration>)
    ensures forall a :: a in Arrows(table, rs) <==> exists d :: d in rs && a in ArrowOf(table, d)
  {
    if rs != [] {
      ArrowsMembers(table, rs[..|rs| - 1]);
      assert rs == rs[..|rs| - 1] + [rs[|rs| - 1]];
    }
  }

  lemma ArrowsAreDependencies(comps: seq<Component>, table: map<string, Writer>)
    requires Clean(AllWrites(comps)) && TableOf(AllWrites(comps), table)
    ensures Arrows(table, AllReads(comps)) == Dependencies(comps).arrows
  {
    ArrowsMembers(table, AllReads(comps));
    forall a | a in Arrows(table, AllReads(comps)) ensures a in Dependencies(comps).arrows {
      var d :| d in AllReads(comps) && a in ArrowOf(table, d);
      ReadGivesDependency(comps, table, d);
    }
    forall a, b | a in comps && b in comps && Edge(a, b) ensures (a, b) in Arrows(table, AllReads(comps)) {
      DependencyComesFromRead(comps, table, a, b);
    }
  }

  lemma ReadGivesDependency(comps: seq<Component>, table: map<string, Writer>, d: Declaration)
    requires TableOf(AllWrites(comps), table) && d in AllReads(comps)
    ensures ArrowOf(table, d) <= Dependencies(comps).arrows
  {
    WritersAreMembers(comps, table);
    DeclarationMembers(Reading, comps);
    assert Declares(d.owner.inputs, d);
    assert SignalDependency(d.name, d.unit) in d.owner.inputs;
    assert d.name in NamesOf(d.owner.inputs);
  }

  lemma DependencyComesFromRead(comps: seq<Component>, table: map<string, Writer>, a: Component, b: Component)
    requires TableOf(AllWrites(comps), table) && a in comps && b in comps && Edge(a, b)
    ensures exists d :: d in AllReads(comps) && (a, b) in ArrowOf(table, d)
  {
    DeclarationMembers(Writing, comps);
    DeclarationMembers(Reading, comps);
    var n :| n in NamesOf(a.outputs) && n in NamesOf(b.inputs);
    var w :| w in a.outputs && w.name == n;
    var r :| r in b.inputs && r.name == n;
    assert Declares(a.outputs, Declaration(n, w.unit, a)) && Declares(b.inputs, Declaration(n, r.unit, b));
    assert Declaration(n, w.unit, a) in AllWrites(comps);
    assert Declaration(n, r.unit, b) in AllReads(comps);
  }

  // ---------- The builder ----------

  class SimSystemBuilder {
    var components: seq<Component>

    constructor ()
      ensures components == []
    {
      components := [];
    }

    method Add(component: Component)
      modifies this
      ensures components == old(components) + [component]
    {
      components := components + [component];
    }

    /** The components in execution order, or the first complaint. */
    method Build() returns (r: Result<seq<Component>>)
      ensures Answers(components, r)
    {
      var table := RegisterWriters(components);
      if table.Err? {
        WriteFaultIsUnclean(AllWrites(components), table.error);
        return Err(table.error);
      }
      var edges := BuildEdges(components, table.value);
      if edges.Err? {
        UnitFaultDisagrees(AllWrites(components), AllReads(components), edges.error);
        return Err(edges.error);
      }
      var distinct := NoDuplicates(components);
      if !distinct {
        return Err(DuplicateComponent);
      }
      var sorted, left := SortOrLeftOver(components, edges.value, Dependencies(components));
      return if |sorted| != |components| then Err(DependencyCycle(left)) else Ok(sorted);
    }
  }

  /** Build succeeds just when the list passes the checks and has no cycle, and its answer is justified. */
  ghost predicate Answers(comps: seq<Component>, r: Result<seq<Component>>) {
    (r.Ok? <==> Accepts(comps) && Acyclic(Dependencies(comps))) && Outcome(comps, r)
  }

  /** What each answer of Build says about the list it was given. */
  ghost predicate Outcome(comps: seq<Component>, r: Result<seq<Component>>) {
    match r
    case Ok(order) => StableOrder(Dependencies(comps), order)
    case Err(BlankWrite(_)) => WriteFault(AllWrites(comps), r.error)
    case Err(MultipleWriters(_, _, _)) => WriteFault(AllWrites(comps), r.error)
    case Err(UnitMismatch(_, _, _)) =>
      Clean(AllWrites(comps)) && UnitFault(AllWrites(comps), AllReads(comps), r.error)
    case Err(DuplicateComponent) =>
      Clean(AllWrites(comps)) && UnitsAgree(AllWrites(comps), AllReads(comps)) && !Distinct(comps)
    case Err(DependencyCycle(left)) => Accepts(comps) && left != {} && IsDownstreamSet(Dependencies(comps), left)
  }

  /** `ToDictionary` refuses a second entry for one component. */
  method NoDuplicates(comps: seq<Component>) returns (distinct: bool)
    ensures distinct <==> Distinct(comps)
  {
    var keys: set<Component> := {};
    for i := 0 to |comps|
      invariant Distinct(comps[..i]) && keys == SetOf(comps[..i])
    {
      if comps[i] in keys {
        var j :| 0 <= j < i && comps[j] == comps[i];
        return false;
      }
      keys := keys + {comps[i]};
    }
    assert comps[..|comps|] == comps;
    return true;
  }

  lemma WriteFaultIsUnclean(ws: seq<Declaration>, e: BuildError)
    requires WriteFault(ws, e)
    ensures !Clean(ws) && (e.BlankWrite? || e.MultipleWriters?)
  {
  }

  lemma UnitFaultDisagrees(ws: seq<Declaration>, rs: seq<Declaration>, e: BuildError)
    requires UnitFault(ws, rs, e)
    ensures !UnitsAgree(ws, rs) && e.UnitMismatch?
  {
  }
}
