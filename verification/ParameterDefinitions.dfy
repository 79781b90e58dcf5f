/** Defining a system's parameters, one after another. */
module ParameterDefinitions {
  import opened Names
  import opened SignalBus
  import opened ParameterStore

  function Bounded(name: string, default: real, min: real, max: Option<real>): Definition {
    Definition(name, default, Some(min), max)
  }

  function DefineAll(s: Store, ds: seq<Definition>): (s': Store)
    requires ValidStore(s)
    ensures ValidStore(s')
  {
    if ds == [] then s else AfterDefine(DefineAll(s, ds[..|ds| - 1]), ds[|ds| - 1])
  }

  /** The definitions can be made over `s`: sensible, of distinct names, and fitting what is stored there. */
  ghost predicate Definable(s: Store, ds: seq<Definition>) {
    && (forall i, j | 0 <= i < j < |ds| :: ds[i].name != ds[j].name)
    && (forall i | 0 <= i < |ds| :: ValidDefinition(ds[i]))
    && (forall i | 0 <= i < |ds| :: InRange(ds[i], HeldUnder(s, ds[i])))
  }

  /** The value that a store holds once `d` is defined. */
  function HeldUnder(s: Store, d: Definition): real {
    Held(s, d.name, d.defaultValue)
  }

  /** The value that is there, or else the default. */
  function Held(s: Store, name: string, default: real): real { if name in s.values then s.values[name] else default }

  ghost predicate NotAmong(ds: seq<Definition>, n: string) {
    forall i | 0 <= i < |ds| :: ds[i].name != n
  }

  /** What defining `ds` over `s` leads to: they are there as defined, in range, and no other value differs. */
  ghost predicate AllDefined(s: Store, ds: seq<Definition>, s': Store) {
    && StoreInRange(s')
    && (forall i | 0 <= i < |ds| :: ds[i].name in s'.definitions && s'.definitions[ds[i].name] == ds[i])
    && (forall n | NotAmong(ds, n) :: SameValue(s, s', n))
  }

  ghost predicate SameValue(s: Store, s': Store, n: string) {
    (n in s'.values <==> n in s.values) && (n in s.values && n in s'.values ==> s'.values[n] == s.values[n])
  }

  lemma DefineOneMore(s: Store, ds: seq<Definition>, s1: Store, d: Definition)
    requires AllDefined(s, ds, s1) && NotAmong(ds, d.name) && ValidDefinition(d)
    requires InRange(d, HeldUnder(s, d))
    ensures AllDefined(s, ds + [d], AfterDefine(s1, d))
  {
    assert SameValue(s, s1, d.name);
    DefineKeepsRangeIff(s1, d);
    forall n | NotAmong(ds + [d], n) ensures SameValue(s, AfterDefine(s1, d), n) {
      assert (ds + [d])[|ds|].name != n;
      forall i | 0 <= i < |ds| ensures ds[i].name != n { assert (ds + [d])[i].name != n; }
      assert NotAmong(ds, n) && SameValue(s, s1, n);
    }
  }

  lemma {:induction false} DefineAllWorks(s: Store, ds: seq<Definition>)
    requires StoreInRange(s) && Definable(s, ds)
    ensures AllDefined(s, ds, DefineAll(s, ds))
  {
    if ds != [] {
      var init, d := ds[..|ds| - 1], ds[|ds| - 1];
      DefineAllWorks(s, init);
      DefineOneMore(s, init, DefineAll(s, init), d);
      assert ds == init + [d];
    }
  }

  /** `d` is in force, with the value `v`. */
  ghost predicate HoldsAs(s: Store, d: Definition, v: real) {
    d.name in s.values && s.values[d.name] == v && d.name in s.definitions && s.definitions[d.name] == d
  }

  /** Whatever the values that are there, in range or not: afterwards every parameter holds the one that was
      there, or else its default, and nothing else differs. */
  lemma {:induction false} DefinedParametersHold(s: Store, ds: seq<Definition>)
    requires ValidStore(s) && forall i | 0 <= i < |ds| :: ValidDefinition(ds[i])
    requires forall i, j | 0 <= i < j < |ds| :: ds[i].name != ds[j].name
    ensures forall i | 0 <= i < |ds| :: HoldsAs(DefineAll(s, ds), ds[i], HeldUnder(s, ds[i]))
    ensures forall n | NotAmong(ds, n) :: SameValue(s, DefineAll(s, ds), n)
  {
    if ds != [] {
      var init, d := ds[..|ds| - 1], ds[|ds| - 1];
      DefinedParametersHold(s, init);
      assert NotAmong(init, d.name) && SameValue(s, DefineAll(s, init), d.name);
      forall i | 0 <= i < |init| ensures HoldsAs(DefineAll(s, ds), ds[i], HeldUnder(s, ds[i])) {
        assert init[i] == ds[i] && HoldsAs(DefineAll(s, init), init[i], HeldUnder(s, init[i]));
      }
      forall n | NotAmong(ds, n) ensures SameValue(s, DefineAll(s, ds), n) {
        forall i | 0 <= i < |init| ensures init[i].name != n { assert ds[i].name != n; }
        assert NotAmong(init, n) && SameValue(s, DefineAll(s, init), n) && ds[|init|].name != n;
      }
    }
  }

  predicate IsNamedPlainly(d: Definition) { Trim(d.name) == d.name }

  lemma OneDefinitionMore(s: Store, ds: seq<Definition>, k: nat)
    requires ValidStore(s) && k < |ds|
    ensures DefineAll(s, ds[..k + 1]) == AfterDefine(DefineAll(s, ds[..k]), ds[k])
  {
    var upTo := ds[..k + 1];
    assert upTo[..k] == ds[..k] && upTo[k] == ds[k] && |upTo| == k + 1 && upTo != [];
  }

  lemma PlainDefinition(d: Definition)
    requires IsNamedPlainly(d)
    ensures d.(name := Trim(d.name)) == d
  {
  }

  /** The Define calls of a system's constructor. */
  method DefineEach(parameters: ParameterStore, ds: seq<Definition>)
    requires ValidStore(parameters.State()) && forall k | 0 <= k < |ds| :: IsNamedPlainly(ds[k])
    modifies parameters
    ensures parameters.State() == DefineAll(old(parameters.State()), ds)
  {
    for k := 0 to |ds|
      invariant ValidStore(parameters.State())
      invariant parameters.State() == DefineAll(old(parameters.State()), ds[..k])
    {
      PlainDefinition(ds[k]);
      OneDefinitionMore(old(parameters.State()), ds, k);
      var ok := parameters.Define(ds[k]);
    }
    assert ds[..|ds|] == ds;
  }
}
