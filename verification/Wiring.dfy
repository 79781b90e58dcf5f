/** What components declare about the signals they touch, and what the declarations amount to. */
module Wiring {
  import opened Names
  import opened Ordering

  datatype SignalDependency = SignalDependency(name: string, unit: string)

  /** The builder's view of a component. `id` stands for object identity: two distinct objects of
      one type with the same declarations differ in `id`, so `==` is `ReferenceEquals`. `inputs` and
      `outputs` are the `Reads` and `Writes` properties. */
  datatype Component = Component(
    id: nat, name: string, inputs: seq<SignalDependency>, outputs: seq<SignalDependency>)

  function Dep(name: string, unit: string): SignalDependency { SignalDependency(name, unit) }

  function NamesOf(ds: seq<SignalDependency>): (names: set<string>)
    ensures forall d <- ds :: d.name in names
  {
    set d | d in ds :: d.name
  }

  /** `b` reads, from another component, a signal that `a` writes. */
  predicate Edge(a: Component, b: Component) {
    a != b && exists n :: n in NamesOf(a.outputs) && n in NamesOf(b.inputs)
  }

  /** The writer-to-reader graph, self-reads left out. */
  function Dependencies(comps: seq<Component>): Graph<Component> {
    Graph(comps, set a, b | a in comps && b in comps && Edge(a, b) :: (a, b))
  }

  // ---------- All declarations, in the order in which Build meets them ----------

  datatype Declaration = Declaration(name: string, unit: string, owner: Component)

  function Owned(ds: seq<SignalDependency>, owner: Component): (s: seq<Declaration>)
    ensures |s| == |ds|
    ensures forall k | 0 <= k < |ds| :: s[k] == Declaration(ds[k].name, ds[k].unit, owner)
  {
    seq(|ds|, k requires 0 <= k < |ds| => Declaration(ds[k].name, ds[k].unit, owner))
  }

  datatype Side = Reading | Writing

  function Listed(side: Side, c: Component): seq<SignalDependency> {
    if side == Reading then c.inputs else c.outputs
  }

  function Declarations(side: Side, comps: seq<Component>): seq<Declaration> {
    if comps == [] then [] else
      var last := comps[|comps| - 1];
      Declarations(side, comps[..|comps| - 1]) + Owned(Listed(side, last), last)
  }

  function AllWrites(comps: seq<Component>): seq<Declaration> { Declarations(Writing, comps) }

  function AllReads(comps: seq<Component>): seq<Declaration> { Declarations(Reading, comps) }

  ghost predicate Declares(ds: seq<SignalDependency>, d: Declaration) {
    SignalDependency(d.name, d.unit) in ds
  }

  lemma {:induction false} DeclarationMembers(side: Side, comps: seq<Component>)
    ensures forall d :: d in Declarations(side, comps) <==>
                        d.owner in comps && Declares(Listed(side, d.owner), d)
  {
    if comps != [] {
      var last := comps[|comps| - 1];
      DeclarationMembers(side, comps[..|comps| - 1]);
      assert comps == comps[..|comps| - 1] + [last];
      var ds := Listed(side, last);
      forall d ensures d in Owned(ds, last) <==> d.owner == last && Declares(ds, d) {
        if d.owner == last && Declares(ds, d) {
          var k :| 0 <= k < |ds| && ds[k] == SignalDependency(d.name, d.unit);
          assert Owned(ds, last)[k] == d;
        }
      }
    }
  }

  /** What a pair of nested loops has gone through after `k` declarations of component `i`. */
  function Seen(side: Side, comps: seq<Component>, i: nat, k: nat): seq<Declaration>
    requires i < |comps| && k <= |Listed(side, comps[i])|
  {
    Declarations(side, comps[..i]) + Owned(Listed(side, comps[i])[..k], comps[i])
  }

  lemma {:induction false} SeenIsPrefix(side: Side, comps: seq<Component>, i: nat, k: nat)
    requires i < |comps| && k <= |Listed(side, comps[i])|
    ensures Seen(side, comps, i, k) <= Declarations(side, comps)
    ensures k == |Listed(side, comps[i])| ==> Seen(side, comps, i, k) == Declarations(side, comps[..i + 1])
    decreases |comps| - i
  {
    var ds := Listed(side, comps[i]);
    assert comps[..i + 1][..i] == comps[..i];
    assert Owned(ds[..k], comps[i]) <= Owned(ds, comps[i]);
    assert ds[..|ds|] == ds;
    assert Seen(side, comps, i, k) <= Declarations(side, comps[..i + 1]);
    if i + 1 < |comps| {
      SeenIsPrefix(side, comps, i + 1, 0);
      assert Seen(side, comps, i + 1, 0) == Declarations(side, comps[..i + 1]);
    } else {
      assert comps[..i + 1] == comps;
    }
  }

  lemma SeenStart(side: Side, comps: seq<Component>, i: nat)
    requires i < |comps|
    ensures Seen(side, comps, i, 0) == Declarations(side, comps[..i])
  {
  }

  lemma SeenNext(side: Side, comps: seq<Component>, i: nat, k: nat)
    requires i < |comps| && k < |Listed(side, comps[i])|
    ensures var d := Listed(side, comps[i])[k];
      && Seen(side, comps, i, k + 1) == Seen(side, comps, i, k) + [Declaration(d.name, d.unit, comps[i])]
      && |Seen(side, comps, i, k)| < |Declarations(side, comps)|
      && Declarations(side, comps)[..|Seen(side, comps, i, k)|] == Seen(side, comps, i, k)
      && Declarations(side, comps)[|Seen(side, comps, i, k)|] == Declaration(d.name, d.unit, comps[i])
  {
    var ds := Listed(side, comps[i]);
    assert ds[..k + 1] == ds[..k] + [ds[k]];
    assert Owned(ds[..k + 1], comps[i]) == Owned(ds[..k], comps[i]) + [Declaration(ds[k].name, ds[k].unit, comps[i])];
    SeenIsPrefix(side, comps, i, k + 1);
  }

  // ---------- What Build insists on ----------

  /** No blank name and no name twice. */
  predicate Clean(ws: seq<Declaration>) {
    && (forall i | 0 <= i < |ws| :: !IsBlank(ws[i].name))
    && (forall i, j | 0 <= i < j < |ws| :: ws[i].name != ws[j].name)
  }

  predicate UnitsAgree(ws: seq<Declaration>, rs: seq<Declaration>) {
    forall i, j | 0 <= i < |ws| && 0 <= j < |rs| :: ws[i].name == rs[j].name ==> ws[i].unit == rs[j].unit
  }

  /** The list passes every check that comes before the sorting. */
  predicate Accepts(comps: seq<Component>) {
    Clean(AllWrites(comps)) && UnitsAgree(AllWrites(comps), AllReads(comps)) && Distinct(comps)
  }

  /** One writer per signal, among the members of the list. */
  ghost predicate SingleWriter(comps: seq<Component>) {
    forall a, b, n :: a in comps && b in comps && n in NamesOf(a.outputs) && n in NamesOf(b.outputs) ==> a == b
  }

  lemma OneDeclaration(ws: seq<Declaration>, d: Declaration, e: Declaration)
    requires Clean(ws) && d in ws && e in ws && d.name == e.name
    ensures d == e
  {
  }

  lemma DeclaredWrite(comps: seq<Component>, c: Component, n: string) returns (d: Declaration)
    requires c in comps && n in NamesOf(c.outputs)
    ensures d in AllWrites(comps) && d.owner == c && d.name == n
  {
    var o :| o in c.outputs && o.name == n;
    d := Declaration(n, o.unit, c);
    DeclarationMembers(Writing, comps);
    assert Declares(c.outputs, d);
  }

  lemma CleanGivesSingleWriter(comps: seq<Component>)
    requires Clean(AllWrites(comps))
    ensures SingleWriter(comps)
  {
    forall a, b, n | a in comps && b in comps && n in NamesOf(a.outputs) && n in NamesOf(b.outputs)
      ensures a == b
    {
      var d := DeclaredWrite(comps, a, n);
      var e := DeclaredWrite(comps, b, n);
      OneDeclaration(AllWrites(comps), d, e);
    }
  }

  // ---------- The same, as a property of the set of components ----------

  predicate CleanAlone(c: Component) {
    && (forall d <- c.outputs :: !IsBlank(d.name))
    && (forall i, j | 0 <= i < j < |c.outputs| :: c.outputs[i].name != c.outputs[j].name)
  }

  /** Order and position play no part here. */
  ghost predicate AcceptsSet(s: set<Component>) {
    && (forall c <- s :: CleanAlone(c))
    && (forall a, b, n :: a in s && b in s && n in NamesOf(a.outputs) && n in NamesOf(b.outputs) ==> a == b)
    && (forall a, b, d, e :: a in s && b in s && d in a.outputs && e in b.inputs && d.name == e.name
                             ==> d.unit == e.unit)
  }

  lemma {:induction false} CleanFromParts(comps: seq<Component>)
    requires Distinct(comps) && SingleWriter(comps)
    requires forall c <- comps :: CleanAlone(c)
    ensures Clean(AllWrites(comps))
  {
    if comps != [] {
      var init, last := comps[..|comps| - 1], comps[|comps| - 1];
      assert comps == init + [last];
      assert SingleWriter(init);
      CleanFromParts(init);
      DeclarationMembers(Writing, init);
      var ws, own := AllWrites(init), Owned(last.outputs, last);
      forall i, j | 0 <= i < |ws| && 0 <= j < |own| ensures ws[i].name != own[j].name {
        assert ws[i] in ws && ws[i].owner in init;
        assert SignalDependency(ws[i].name, ws[i].unit) in ws[i].owner.outputs;
        assert last.outputs[j] in last.outputs;
        assert ws[i].name in NamesOf(ws[i].owner.outputs);
      }
      CleanOwned(last);
      CleanJoin(ws, own);
    }
  }

  lemma CleanOwned(c: Component)
    requires CleanAlone(c)
    ensures Clean(Owned(c.outputs, c))
  {
    forall i | 0 <= i < |c.outputs| ensures !IsBlank(Owned(c.outputs, c)[i].name) {
      assert c.outputs[i] in c.outputs;
    }
  }

  lemma CleanJoin(ws: seq<Declaration>, own: seq<Declaration>)
    requires Clean(ws) && Clean(own)
    requires forall i, j | 0 <= i < |ws| && 0 <= j < |own| :: ws[i].name != own[j].name
    ensures Clean(ws + own)
  {
  }

  lemma CleanSplits(ws: seq<Declaration>, own: seq<Declaration>)
    requires Clean(ws + own)
    ensures Clean(ws) && Clean(own)
  {
    assert forall i | 0 <= i < |own| :: (ws + own)[|ws| + i] == own[i];
    assert forall i | 0 <= i < |ws| :: (ws + own)[i] == ws[i];
  }

  lemma OwnedIsClean(c: Component)
    requires Clean(Owned(c.outputs, c))
    ensures CleanAlone(c)
  {
  }

  lemma {:induction false} CleanParts(comps: seq<Component>)
    requires Clean(AllWrites(comps))
    ensures forall c <- comps :: CleanAlone(c)
  {
    if comps != [] {
      var init, last := comps[..|comps| - 1], comps[|comps| - 1];
      CleanSplits(AllWrites(init), Owned(last.outputs, last));
      CleanParts(init);
      OwnedIsClean(last);
      assert comps == init + [last];
    }
  }

  lemma SetGivesAccepts(comps: seq<Component>)
    requires Distinct(comps) && AcceptsSet(SetOf(comps))
    ensures Accepts(comps)
  {
    DeclarationMembers(Writing, comps);
    DeclarationMembers(Reading, comps);
    CleanFromParts(comps);
    var ws, rs := AllWrites(comps), AllReads(comps);
    forall i, j | 0 <= i < |ws| && 0 <= j < |rs| && ws[i].name == rs[j].name
      ensures ws[i].unit == rs[j].unit
    {
      assert ws[i] in ws && rs[j] in rs;
      assert Declares(ws[i].owner.outputs, ws[i]) && Declares(rs[j].owner.inputs, rs[j]);
    }
  }

  /** Acceptance is distinctness plus a property of the set: the order of the list is immaterial. */
  lemma AcceptsIsOrderFree(comps: seq<Component>)
    ensures Accepts(comps) <==> Distinct(comps) && AcceptsSet(SetOf(comps))
  {
    if Accepts(comps) {
      AcceptsGivesSet(comps);
    }
    if Distinct(comps) && AcceptsSet(SetOf(comps)) {
      SetGivesAccepts(comps);
    }
  }

  lemma AcceptsGivesSet(comps: seq<Component>)
    requires Accepts(comps)
    ensures AcceptsSet(SetOf(comps))
  {
    DeclarationMembers(Writing, comps);
    DeclarationMembers(Reading, comps);
    CleanParts(comps);
    CleanGivesSingleWriter(comps);
    forall a, b, d, e | a in comps && b in comps && d in a.outputs && e in b.inputs && d.name == e.name
      ensures d.unit == e.unit
    {
      assert Declares(a.outputs, Declaration(d.name, d.unit, a));
      assert Declares(b.inputs, Declaration(e.name, e.unit, b));
      assert Declaration(d.name, d.unit, a) in AllWrites(comps);
      assert Declaration(e.name, e.unit, b) in AllReads(comps);
    }
  }
}
