/** Runtime parameters: definitions with ranges, clamping on Set, and change events. */
module ParameterStore {
  import opened Names
  import opened SignalBus

  datatype Definition = Definition(name: string, defaultValue: real, min: Option<real>, max: Option<real>)

  /** What subscribers are told. */
  datatype Change = Change(name: string, oldValue: real, requestedValue: real, newValue: real, wasClamped: bool)

  datatype SetOutcome = BlankName | UnknownParameter | Unchanged | Changed(event: Change)

  datatype Store = Store(values: map<string, real>, definitions: map<string, Definition>)

  /** `ParameterDefinition.Validate`, on a trimmed name. */
  predicate ValidDefinition(d: Definition) {
    !IsBlank(d.name) && (d.min.Some? && d.max.Some? ==> d.min.value <= d.max.value)
  }

  predicate InRange(d: Definition, value: real) {
    (d.min.Some? ==> d.min.value <= value) && (d.max.Some? ==> value <= d.max.value)
  }

  /** The nearest admissible value, and whether that differs from the request. */
  function ApplyValidation(d: Definition, value: real): (r: (real, bool))
    requires ValidDefinition(d)
    ensures InRange(d, r.0)
    ensures r.1 <==> !InRange(d, value)
    ensures !r.1 ==> r.0 == value
    ensures forall v :: InRange(d, v) ==>
      (if value <= r.0 then r.0 - value else value - r.0) <= (if value <= v then v - value else value - v)
  {
    var low := if d.min.Some? && value < d.min.value then d.min.value else value;
    var high := if d.max.Some? && low > d.max.value then d.max.value else low;
    (high, (d.min.Some? && value < d.min.value) || (d.max.Some? && low > d.max.value))
  }

  /** What a Set leaves in the store for `name`, already trimmed. */
  function Applied(s: Store, name: string, value: real): (real, bool)
    requires ValidStore(s)
  {
    if name in s.definitions then ApplyValidation(s.definitions[name], value) else (value, false)
  }

  predicate ValidStore(s: Store) {
    forall n <- s.definitions :: ValidDefinition(s.definitions[n]) && n in s.values
  }

  /** Every parameter lies within its definition. */
  predicate StoreInRange(s: Store) {
    ValidStore(s) && forall n <- s.definitions :: InRange(s.definitions[n], s.values[n])
  }

  /** The outcome of a Set under a name that has been trimmed. */
  function OutcomeOfSet(s: Store, name: string, value: real): SetOutcome
    requires ValidStore(s)
  {
    if name == "" then BlankName
    else if name !in s.values then UnknownParameter
    else
      var (applied, wasClamped) := Applied(s, name, value);
      if s.values[name] == applied then Unchanged
      else Changed(Change(name, s.values[name], value, applied, wasClamped))
  }

  function AfterSet(s: Store, name: string, value: real): Store
    requires ValidStore(s)
  {
    if name == "" || name !in s.values then s
    else s.(values := s.values[name := Applied(s, name, value).0])
  }

  /** The store after a Define whose name has been trimmed. */
  function AfterDefine(s: Store, d: Definition): (s': Store)
    requires ValidStore(s)
    ensures ValidStore(s')
  {
    if !ValidDefinition(d) then s
    else Store(if d.name in s.values then s.values else s.values[d.name := d.defaultValue],
               s.definitions[d.name := d])
  }

  /** What a Define under a trimmed name comes to, told by the definition and the two states alone. */
  ghost predicate DefinedAs(s: Store, d: Definition, s': Store, ok: bool) {
    && (ok <==> d.name != "" && (d.min == None || d.max == None || d.min.value <= d.max.value))
    && (!ok ==> s' == s)
    && (ok ==>
          && s'.definitions == s.definitions[d.name := d]
          && (d.name in s.values ==> s'.values == s.values)
          && (d.name !in s.values ==> s'.values == s.values[d.name := d.defaultValue]))
  }

  /** Define refuses a blank name and limits that cross; otherwise the definition is in force, and a value is
      stored only if there was none. */
  lemma DefineRecords(s: Store, d: Definition)
    requires ValidStore(s) && (IsBlank(d.name) <==> d.name == "")
    ensures DefinedAs(s, d, AfterDefine(s, d), ValidDefinition(d))
  {
  }

  class ParameterStore {
    var values: map<string, real>
    var definitions: map<string, Definition>

    function State(): Store reads this {
      Store(values, definitions)
    }

    constructor ()
      ensures State() == Store(map[], map[])
    {
      values, definitions := map[], map[];
    }

    /** `false` is an `ArgumentException`. The stored value, if there is one, is left as it is. */
    method Define(definition: Definition) returns (ok: bool)
      requires ValidStore(State())
      modifies this
      ensures State() == AfterDefine(old(State()), definition.(name := Trim(definition.name)))
      ensures ok <==> ValidDefinition(definition.(name := Trim(definition.name)))
      ensures DefinedAs(old(State()), definition.(name := Trim(definition.name)), State(), ok)
    {
      DefineRecords(State(), definition.(name := Trim(definition.name)));
      var d := definition.(name := Trim(definition.name));
      ok := ValidDefinition(d);
      if ok {
        definitions := definitions[d.name := d];
        if d.name !in values {
          values := values[d.name := d.defaultValue];
        }
      }
    }

    function Get(name: string): Option<real>
      reads this
    {
      if name in values then Some(values[name]) else None
    }

    /** With one thread the compare-and-swap succeeds at the first attempt; ParameterRace has the rest. */
    method Set(rawName: string, requestedValue: real) returns (outcome: SetOutcome)
      requires ValidStore(State())
      modifies this
      ensures State() == AfterSet(old(State()), Trim(rawName), requestedValue)
      ensures outcome == OutcomeOfSet(old(State()), Trim(rawName), requestedValue)
      ensures SetTo(old(State()), Trim(rawName), requestedValue, State(), outcome)
    {
      SetStoresNearest(State(), Trim(rawName), requestedValue);
      if IsBlank(rawName) {
        return BlankName;
      }
      var name := Trim(rawName);
      var value, wasClamped := requestedValue, false;
      if name in definitions {
        var applied := ApplyValidation(definitions[name], value);
        value, wasClamped := applied.0, applied.1;
      }
      if name !in values {
        return UnknownParameter;
      }
      var oldValue := values[name];
      values := values[name := value];
      var e := Change(name, oldValue, requestedValue, value, wasClamped);
      return if oldValue != value then Changed(e) else Unchanged;
    }
  }

  function Distance(x: real, y: real): real { if x <= y then y - x else x - y }

  /** An admissible value, and none is nearer to the request. */
  ghost predicate Nearest(d: Definition, requested: real, value: real) {
    InRange(d, value) && forall v :: InRange(d, v) ==> Distance(requested, value) <= Distance(requested, v)
  }

  /** What a Set under a trimmed name comes to, told by the request and the two states alone. */
  ghost predicate SetTo(s: Store, name: string, requested: real, s': Store, outcome: SetOutcome) {
    && s'.definitions == s.definitions
    && (name == "" ==> outcome == BlankName && s' == s)
    && (name != "" && name !in s.values ==> outcome == UnknownParameter && s' == s)
    && (name != "" && name in s.values ==>
          && name in s'.values && s'.values == s.values[name := s'.values[name]]
          && (name in s.definitions ==> Nearest(s.definitions[name], requested, s'.values[name]))
          && (name !in s.definitions ==> s'.values[name] == requested)
          && (s'.values[name] == s.values[name] ==> outcome == Unchanged)
          && (s'.values[name] != s.values[name] ==>
                outcome == Changed(Change(name, s.values[name], requested, s'.values[name],
                                          name in s.definitions && !InRange(s.definitions[name], requested)))))
  }

  /** Set stores the admissible value nearest to the request, under that name only, and its event carries the
      old value, the request, the value stored, and whether the request was out of range. */
  lemma SetStoresNearest(s: Store, name: string, requested: real)
    requires ValidStore(s)
    ensures SetTo(s, name, requested, AfterSet(s, name, requested), OutcomeOfSet(s, name, requested))
  {
  }

  lemma NearestIsUnique(d: Definition, requested: real, v: real, w: real)
    requires Nearest(d, requested, v) && Nearest(d, requested, w)
    ensures v == w
    ensures InRange(d, requested) ==> v == requested
  {
    var mean := (v + w) / 2.0;
    assert InRange(d, mean);
    assert InRange(d, requested) ==> Distance(requested, v) <= Distance(requested, requested);
  }

  /** And that leaves it no choice. */
  lemma SetToIsUnique(s: Store, name: string, requested: real, s': Store, a: SetOutcome, t: Store, b: SetOutcome)
    requires SetTo(s, name, requested, s', a) && SetTo(s, name, requested, t, b)
    ensures s' == t && a == b
  {
    if name != "" && name in s.values && name in s.definitions {
      NearestIsUnique(s.definitions[name], requested, s'.values[name], t.values[name]);
    }
  }

  /** Set keeps every parameter in range, changes at most the named one, and reports exactly the changes. */
  lemma SetKeepsRange(s: Store, name: string, value: real)
    requires StoreInRange(s)
    ensures var s', outcome := AfterSet(s, name, value), OutcomeOfSet(s, name, value);
      && StoreInRange(s') && s'.definitions == s.definitions && s'.values.Keys == s.values.Keys
      && (outcome.Changed? <==> s'.values != s.values)
      && (outcome.Changed? ==>
           && s'.values == s.values[outcome.event.name := outcome.event.newValue]
           && s.values[outcome.event.name] == outcome.event.oldValue)
  {
    var s' := AfterSet(s, name, value);
    if name != "" && name in s.values {
      assert s'.values[name] == Applied(s, name, value).0;
      if s.values[name] == s'.values[name] { assert s'.values == s.values; }
    }
  }

  /** A second Set of the same value is silent: nothing changes and no event is raised. */
  lemma SetTwiceIsSilent(s: Store, name: string, value: real)
    requires StoreInRange(s) && name != "" && name in s.values
    ensures ValidStore(AfterSet(s, name, value))
    ensures OutcomeOfSet(AfterSet(s, name, value), name, value) == Unchanged
    ensures AfterSet(AfterSet(s, name, value), name, value) == AfterSet(s, name, value)
  {
    SetKeepsRange(s, name, value);
  }

  /** Define does not clamp: ranges survive it exactly when the value that ends up stored, be it an older
      value or the new default, fits the new definition. */
  lemma DefineKeepsRangeIff(s: Store, d: Definition)
    requires StoreInRange(s) && ValidDefinition(d)
    ensures StoreInRange(AfterDefine(s, d))
       <==> InRange(d, if d.name in s.values then s.values[d.name] else d.defaultValue)
  {
    var s' := AfterDefine(s, d);
    assert s'.definitions[d.name] == d;
    assert s'.values[d.name] == if d.name in s.values then s.values[d.name] else d.defaultValue;
    forall n | n in s.definitions && n != d.name ensures s'.values[n] == s.values[n] {
    }
  }
}
