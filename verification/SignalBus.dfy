/** The shared signal table that components read and write. */
module SignalBus {
  import opened Names
  import opened Dataflow

  datatype Option<+T> = None | Some(value: T)

  class SignalBus {
    var signals: Bus

    constructor ()
      ensures signals == map[]
    {
      signals := map[];
    }

    /** Stores under the trimmed name; a blank name is an `ArgumentException` (`false`). */
    method Set(name: string, value: real) returns (ok: bool)
      modifies this
      ensures ok <==> !IsBlank(name)
      ensures signals == if ok then old(signals)[Trim(name) := value] else old(signals)
    {
      ok := !IsBlank(name);
      if ok {
        signals := signals[Trim(name) := value];
      }
    }

    /** Looks up the name as given; `None` is a `KeyNotFoundException`. */
    function Get(name: string): (r: Option<real>)
      reads this
      ensures r.Some? <==> name in signals
      ensures r.Some? ==> r.value == signals[name]
    {
      if name in signals then Some(signals[name]) else None
    }
  }

  /** `Get` of a signal that is known to be there. */
  method Fetch(bus: SignalBus, n: string) returns (value: real)
    requires n in bus.signals
    ensures value == Read(bus.signals, n)
  {
    value := bus.Get(n).value;
  }

  /** `Set` under a name that needs no trimming. */
  method Put(bus: SignalBus, n: string, value: real)
    requires IsTrimmed(n)
    modifies bus
    ensures bus.signals == old(bus.signals)[n := value]
  {
    TrimFixed(n);
    var ok := bus.Set(n, value);
  }

  /** A table that was only ever filled through `Set`. */
  predicate OnlyTrimmedKeys(signals: Bus) {
    forall n <- signals :: IsTrimmed(n)
  }

  /** `Set` then `Get` under one name finds the value just when trimming leaves that name alone. */
  lemma GetAfterSet(signals: Bus, name: string, value: real)
    requires OnlyTrimmedKeys(signals) && !IsBlank(name)
    ensures var after := signals[Trim(name) := value];
      && OnlyTrimmedKeys(after)
      && (name in after && after[name] == value <==> IsTrimmed(name))
  {
    TrimFixed(name);
  }
}
