/** A component may read what it writes itself: such reads must have the unit it writes, and otherwise play
    no part in the building. */
module SelfReads {
  import opened Ordering
  import opened Wiring
  import opened SimSystemBuilder
  import opened BuilderTheorems

  ghost predicate OwnUnitsAgree(c: Component) {
    forall d, e :: d in c.outputs && e in c.inputs && d.name == e.name ==> d.unit == e.unit
  }

  /** A single component is built exactly if its writes are in order and its reads of them have their units. */
  lemma AloneIsBuilt(c: Component, r: Result<seq<Component>>)
    requires Answers([c], r)
    ensures r == Ok([c]) <==> CleanAlone(c) && OwnUnitsAgree(c)
    ensures r.Ok? ==> r == Ok([c])
  {
    assert SetOf([c]) == {c};
    AcceptsIsOrderFree([c]);
    assert Arrangement([c], [c]) && WritersFirst([c]);
    BuiltIsWritersFirst([c], r);
    if r.Ok? { OnlyArrangement(c, r.value); }
  }

  lemma OnlyArrangement(c: Component, order: seq<Component>)
    requires Arrangement([c], order)
    ensures order == [c]
  {
    assert c in [c] && c in order;
    forall k | 0 <= k < |order| ensures order[k] == c { assert order[k] in order && order[k] in [c]; }
    SameLength([c], order);
  }

  // ---------- Leaving them out ----------

  function Others(ds: seq<SignalDependency>, own: set<string>): seq<SignalDependency> {
    if ds == [] then []
    else Others(ds[..|ds| - 1], own) + if ds[|ds| - 1].name in own then [] else [ds[|ds| - 1]]
  }

  lemma {:induction false} OthersMembers(ds: seq<SignalDependency>, own: set<string>)
    ensures forall d :: d in Others(ds, own) <==> d in ds && d.name !in own
    ensures own == {} ==> Others(ds, own) == ds
  {
    if ds != [] {
      OthersMembers(ds[..|ds| - 1], own);
      assert ds == ds[..|ds| - 1] + [ds[|ds| - 1]];
    }
  }

  /** The component without its reads of its own writes. */
  function Plain(c: Component): Component {
    c.(inputs := Others(c.inputs, NamesOf(c.outputs)))
  }

  function PlainAll(comps: seq<Component>): (s: seq<Component>)
    ensures |s| == |comps|
    ensures forall k | 0 <= k < |comps| :: s[k] == Plain(comps[k])
  {
    seq(|comps|, k requires 0 <= k < |comps| => Plain(comps[k]))
  }

  lemma PlainMembers(comps: seq<Component>)
    ensures forall c <- comps :: Plain(c) in PlainAll(comps)
    ensures forall c' <- PlainAll(comps) :: exists c :: c in comps && Plain(c) == c'
  {
    forall c | c in comps ensures Plain(c) in PlainAll(comps) {
      var k :| 0 <= k < |comps| && comps[k] == c;
      assert PlainAll(comps)[k] == Plain(c);
    }
    forall c' | c' in PlainAll(comps) ensures exists c :: c in comps && Plain(c) == c' {
      var k :| 0 <= k < |comps| && PlainAll(comps)[k] == c';
      assert comps[k] in comps;
    }
  }

  /** Different components of an acceptable list stay different. */
  lemma PlainTellsApart(comps: seq<Component>, a: Component, b: Component)
    requires Accepts(comps) && a in comps && b in comps && Plain(a) == Plain(b)
    ensures a == b
  {
    CleanGivesSingleWriter(comps);
    assert a.outputs == b.outputs;
    if a.outputs == [] {
      OthersMembers(a.inputs, NamesOf(a.outputs));
      OthersMembers(b.inputs, NamesOf(b.outputs));
    } else {
      assert a.outputs[0].name in NamesOf(a.outputs) && a.outputs[0].name in NamesOf(b.outputs);
    }
  }

  ghost predicate MemberUnits(comps: seq<Component>) {
    forall a, b, d, e :: a in comps && b in comps && d in a.outputs && e in b.inputs && d.name == e.name
                         ==> d.unit == e.unit
  }

  ghost predicate CleanMembers(comps: seq<Component>) { forall c <- comps :: CleanAlone(c) }

  lemma AcceptsByMembers(comps: seq<Component>)
    ensures Accepts(comps) <==> Distinct(comps) && CleanMembers(comps) && SingleWriter(comps) && MemberUnits(comps)
  {
    AcceptsIsOrderFree(comps);
    assert forall c :: c in SetOf(comps) <==> c in comps;
  }

  lemma UnitsOfMembers(comps: seq<Component>)
    requires UnitsAgree(AllWrites(comps), AllReads(comps))
    ensures MemberUnits(comps)
  {
    DeclarationMembers(Writing, comps);
    DeclarationMembers(Reading, comps);
    forall a, b, d, e | a in comps && b in comps && d in a.outputs && e in b.inputs && d.name == e.name
      ensures d.unit == e.unit
    {
      assert Declares(a.outputs, Declaration(d.name, d.unit, a)) && Declares(b.inputs, Declaration(e.name, e.unit, b));
      assert Declaration(d.name, d.unit, a) in AllWrites(comps);
      assert Declaration(e.name, e.unit, b) in AllReads(comps);
    }
  }

  lemma PlainUnits(comps: seq<Component>)
    requires MemberUnits(comps)
    ensures MemberUnits(PlainAll(comps))
  {
    var plain := PlainAll(comps);
    forall a', b', d, e | a' in plain && b' in plain && d in a'.outputs && e in b'.inputs && d.name == e.name
      ensures d.unit == e.unit
    {
      var a := PlainOf(comps, a');
      var b := PlainOf(comps, b');
      assert d in a.outputs && e in b.inputs;
    }
  }

  lemma PlainOf(comps: seq<Component>, c': Component) returns (c: Component)
    requires c' in PlainAll(comps)
    ensures c in comps && Plain(c) == c' && c.outputs == c'.outputs && forall d <- c'.inputs :: d in c.inputs
  {
    PlainMembers(comps);
    c :| c in comps && Plain(c) == c';
    OthersMembers(c.inputs, NamesOf(c.outputs));
  }

  lemma PlainWriters(comps: seq<Component>)
    requires SingleWriter(comps)
    ensures SingleWriter(PlainAll(comps))
  {
    var plain := PlainAll(comps);
    forall a', b', n | a' in plain && b' in plain && n in NamesOf(a'.outputs) && n in NamesOf(b'.outputs)
      ensures a' == b'
    {
      var a := PlainOf(comps, a');
      var b := PlainOf(comps, b');
      assert n in NamesOf(a.outputs) && n in NamesOf(b.outputs);
    }
  }

  lemma PlainIsAccepted(comps: seq<Component>)
    requires Accepts(comps)
    ensures Accepts(PlainAll(comps))
  {
    var plain := PlainAll(comps);
    AcceptsByMembers(comps);
    forall i, j | 0 <= i < j < |plain| ensures plain[i] != plain[j] {
      if plain[i] == plain[j] { PlainTellsApart(comps, comps[i], comps[j]); }
    }
    PlainsAreClean(comps);
    PlainWriters(comps);
    PlainUnits(comps);
    AcceptsByMembers(plain);
  }

  lemma PlainsAreClean(comps: seq<Component>)
    ensures CleanMembers(PlainAll(comps)) <==> CleanMembers(comps)
  {
    PlainMembers(comps);
    forall c ensures CleanAlone(Plain(c)) <==> CleanAlone(c) {}
  }

  lemma WritersBeforePlain(comps: seq<Component>)
    requires Distinct(PlainAll(comps)) && SingleWriter(PlainAll(comps))
    ensures SingleWriter(comps)
  {
    var plain := PlainAll(comps);
    forall a, b, n | a in comps && b in comps && n in NamesOf(a.outputs) && n in NamesOf(b.outputs) ensures a == b {
      var i :| 0 <= i < |comps| && comps[i] == a;
      var j :| 0 <= j < |comps| && comps[j] == b;
      assert plain[i] in plain && plain[j] in plain;
      assert n in NamesOf(plain[i].outputs) && n in NamesOf(plain[j].outputs);
    }
  }

  lemma PlainWasAccepted(comps: seq<Component>)
    requires Accepts(PlainAll(comps)) && UnitsAgree(AllWrites(comps), AllReads(comps))
    ensures Accepts(comps)
  {
    var plain := PlainAll(comps);
    AcceptsByMembers(plain);
    forall i, j | 0 <= i < j < |comps| ensures comps[i] != comps[j] {
      assert plain[i] != plain[j];
    }
    WritersBeforePlain(comps);
    PlainsAreClean(comps);
    UnitsOfMembers(comps);
    AcceptsByMembers(comps);
  }

  /** For two different components it makes no difference to what the one reads from the other. */
  lemma SameEdges(comps: seq<Component>, a: Component, b: Component)
    requires Accepts(comps) && a in comps && b in comps && a != b
    ensures NamesOf(Plain(a).outputs) !! NamesOf(Plain(b).inputs) <==> NamesOf(a.outputs) !! NamesOf(b.inputs)
  {
    CleanGivesSingleWriter(comps);
    OthersMembers(b.inputs, NamesOf(b.outputs));
    forall n | n in NamesOf(a.outputs) && n in NamesOf(b.inputs) ensures n in NamesOf(Plain(b).inputs) {
      var d :| d in b.inputs && d.name == n;
      assert n !in NamesOf(b.outputs);
      assert d in Plain(b).inputs;
    }
  }

  lemma SameOrders(comps: seq<Component>, order: seq<Component>)
    requires Accepts(comps) && Arrangement(comps, order)
    ensures Arrangement(PlainAll(comps), PlainAll(order))
    ensures WritersFirst(PlainAll(order)) <==> WritersFirst(order)
  {
    var plain := PlainAll(order);
    PlainMembers(comps);
    PlainMembers(order);
    forall i, j | 0 <= i < j < |order| ensures plain[i] != plain[j] {
      if plain[i] == plain[j] { PlainTellsApart(comps, order[i], order[j]); }
    }
    forall i, j | 0 <= i < j < |order|
      ensures NamesOf(plain[j].outputs) !! NamesOf(plain[i].inputs)
         <==> NamesOf(order[j].outputs) !! NamesOf(order[i].inputs)
    {
      SameEdges(comps, order[j], order[i]);
    }
  }

  /** Every arrangement of the plain components comes from one of the others. */
  lemma PlainOrderComesFrom(comps: seq<Component>, plain: seq<Component>) returns (order: seq<Component>)
    requires Accepts(comps) && Arrangement(PlainAll(comps), plain)
    ensures Arrangement(comps, order) && plain == PlainAll(order)
  {
    var all := PlainAll(comps);
    forall k | 0 <= k < |plain| ensures plain[k] in all { assert plain[k] in plain; }
    order := seq(|plain|, k requires 0 <= k < |plain| && plain[k] in all => comps[IndexOf(all, plain[k])]);
    assert plain == PlainAll(order);
    forall i, j | 0 <= i < j < |order| ensures order[i] != order[j] { assert plain[i] != plain[j]; }
    PlainMembers(comps);
    forall c | c in comps ensures c in order {
      assert Plain(c) in plain;
      var k :| 0 <= k < |plain| && plain[k] == Plain(c);
      PlainTellsApart(comps, order[k], c);
    }
  }

  lemma PlainArrows(comps: seq<Component>)
    requires Accepts(comps)
    ensures Distinct(PlainAll(comps))
    ensures SameGraph(Dependencies(comps), Dependencies(PlainAll(comps)))
  {
    var g, h := Dependencies(comps), Dependencies(PlainAll(comps));
    PlainIsAccepted(comps);
    forall i, j | 0 <= i < |comps| && 0 <= j < |comps|
      ensures (comps[i], comps[j]) in g.arrows <==> (Plain(comps[i]), Plain(comps[j])) in h.arrows
    {
      assert PlainAll(comps)[i] in PlainAll(comps) && PlainAll(comps)[j] in PlainAll(comps);
      assert comps[i] in comps && comps[j] in comps;
      if comps[i] == comps[j] {
      } else {
        if Plain(comps[i]) == Plain(comps[j]) { PlainTellsApart(comps, comps[i], comps[j]); }
        SameEdges(comps, comps[i], comps[j]);
      }
    }
  }

  lemma SamePlaces(comps: seq<Component>, order: seq<Component>)
    requires Accepts(comps) && Arrangement(comps, order)
    ensures SamePositions(comps, order, PlainAll(comps), PlainAll(order))
  {
    PlainIsAccepted(comps);
    PlainMembers(comps);
    forall k | 0 <= k < |order|
      ensures SamePosition(comps, order[k], PlainAll(comps), PlainAll(order)[k])
    {
      assert order[k] in order;
      var i := IndexOf(comps, order[k]);
      assert PlainAll(comps)[i] == Plain(order[k]);
    }
  }

  /** Once units agree, leaving out the reads of own writes changes neither whether Build succeeds nor the
      order that it hands out. */
  lemma SelfReadsPlayNoPart(comps: seq<Component>, r: Result<seq<Component>>, r': Result<seq<Component>>)
    requires UnitsAgree(AllWrites(comps), AllReads(comps)) && Answers(comps, r) && Answers(PlainAll(comps), r')
    ensures r.Ok? <==> r'.Ok?
    ensures r.Ok? && r'.Ok? ==> r'.value == PlainAll(r.value)
  {
    BuiltIsWritersFirst(comps, r);
    BuiltIsWritersFirst(PlainAll(comps), r');
    if Accepts(comps) {
      PlainIsAccepted(comps);
    } else if r'.Ok? {
      PlainWasAccepted(comps);
    }
    if r.Ok? {
      SameOrders(comps, r.value);
    } else if r'.Ok? {
      var order := PlainOrderComesFrom(comps, r'.value);
      SameOrders(comps, order);
    }
    if r.Ok? && r'.Ok? {
      PlainArrows(comps);
      SamePlaces(comps, r.value);
      StableCarriesOver(Dependencies(comps), Dependencies(PlainAll(comps)), r.value, PlainAll(r.value));
      StableIsUnique(Dependencies(PlainAll(comps)), r'.value, PlainAll(r.value));
    }
  }
}
