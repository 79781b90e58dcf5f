/** Concurrent `Set` calls on one parameter: the compare-and-swap loop under every interleaving.

    A call is a process of its own, so a schedule may overlap up to `threads` calls in any way. `swaps` and
    `events` record what happened and steer nothing. */
module ParameterRace {
  import opened Ordering
  import opened ParameterStore

  datatype Phase =
    | Reading                              // about to read the current value
    | Swapping(seen: real, seenAt: nat)     // has read it, after `seenAt` swaps; about to try the swap
    | Raising(seen: real)                  // has swapped in a different value; about to raise the event
    | Returned

  /** `target` is what the request comes to within the limits. */
  datatype Call = Call(requested: real, target: real, wasClamped: bool, phase: Phase, failures: nat)

  /** A successful compare-and-swap and what its event carries, or that event. */
  datatype Swap = Swap(call: nat, before: real, after: real, requested: real, wasClamped: bool)

  datatype Race = Race(limits: Definition, initial: real, threads: nat, value: real, calls: seq<Call>,
                       swaps: seq<Swap>, events: seq<Swap>)

  datatype Step = Begin(requested: real) | Read(c: nat) | TrySwap(c: nat) | Raise(c: nat)

  function Start(limits: Definition, initial: real, threads: nat): Race {
    Race(limits, initial, threads, initial, [], [], [])
  }

  function InProgress(calls: seq<Call>): set<nat> { set c: nat | c < |calls| && !calls[c].phase.Returned? }

  function NewCall(limits: Definition, requested: real): Call
    requires ValidDefinition(limits)
  {
    var (target, wasClamped) := ApplyValidation(limits, requested);
    Call(requested, target, wasClamped, Reading, 0)
  }

  function SwapBy(c: nat, call: Call, seen: real): Swap {
    Swap(c, seen, call.target, call.requested, call.wasClamped)
  }

  /** One atomic step; a step that does not fit the call's phase does nothing. */
  function Next(r: Race, step: Step): Race
    requires ValidDefinition(r.limits)
  {
    match step
    case Begin(requested) =>
      if |InProgress(r.calls)| < r.threads then r.(calls := r.calls + [NewCall(r.limits, requested)]) else r
    case Read(c) =>
      if c < |r.calls| && r.calls[c].phase.Reading? then
        r.(calls := r.calls[c := r.calls[c].(phase := Swapping(r.value, |r.swaps|))])
      else r
    case TrySwap(c) =>
      if c < |r.calls| && r.calls[c].phase.Swapping? then
        if r.value == r.calls[c].phase.seen then Swapped(r, c) else Failed(r, c)
      else r
    case Raise(c) =>
      if c < |r.calls| && r.calls[c].phase.Raising? then Raised(r, c) else r
  }

  function Swapped(r: Race, c: nat): Race
    requires c < |r.calls| && r.calls[c].phase.Swapping?
  {
    var call := r.calls[c];
    var changed := call.phase.seen != call.target;
    r.(value := call.target,
       swaps := r.swaps + [SwapBy(c, call, call.phase.seen)],
       calls := r.calls[c := call.(phase := if changed then Raising(call.phase.seen) else Returned)])
  }

  function Failed(r: Race, c: nat): Race
    requires c < |r.calls|
  {
    r.(calls := r.calls[c := r.calls[c].(phase := Reading, failures := r.calls[c].failures + 1)])
  }

  function Raised(r: Race, c: nat): Race
    requires c < |r.calls| && r.calls[c].phase.Raising?
  {
    var call := r.calls[c];
    r.(events := r.events + [SwapBy(c, call, call.phase.seen)],
       calls := r.calls[c := call.(phase := Returned)])
  }

  ghost function Run(r: Race, schedule: seq<Step>): (r': Race)
    requires ValidDefinition(r.limits)
    ensures r'.limits == r.limits && r'.initial == r.initial && r'.threads == r.threads
  {
    if schedule == [] then r else Next(Run(r, schedule[..|schedule| - 1]), schedule[|schedule| - 1])
  }

  // ---------- What every step keeps ----------

  ghost function ValueAt(initial: real, swaps: seq<Swap>, k: nat): real
    requires k <= |swaps|
  {
    if k == 0 then initial else swaps[k - 1].after
  }

  /** The successful swaps lead from the initial value to the current one without a gap. */
  ghost predicate Chain(r: Race) {
    && (forall i | 0 <= i < |r.swaps| :: r.swaps[i].before == ValueAt(r.initial, r.swaps, i))
    && r.value == ValueAt(r.initial, r.swaps, |r.swaps|)
  }

  predicate Finished(call: Call) {
    call.phase.Raising? || call.phase.Returned?
  }

  /** Each swap stores its call's target, and no call swaps twice. */
  ghost predicate SwapsByCalls(r: Race) {
    && (forall i | 0 <= i < |r.swaps| :: SwapByCall(r.calls, r.swaps[i]))
    && (forall i, j | 0 <= i < j < |r.swaps| :: r.swaps[i].call != r.swaps[j].call)
  }

  ghost predicate SwapByCall(calls: seq<Call>, s: Swap) {
    && s.call < |calls| && s == SwapBy(s.call, calls[s.call], s.before) && Finished(calls[s.call])
    && (calls[s.call].phase.Raising? ==> s.before == calls[s.call].phase.seen != s.after)
  }

  ghost predicate HasSwapped(swaps: seq<Swap>, c: nat) {
    exists i :: 0 <= i < |swaps| && swaps[i].call == c
  }

  ghost predicate FinishedHaveSwapped(r: Race) {
    forall c | 0 <= c < |r.calls| && Finished(r.calls[c]) :: HasSwapped(r.swaps, c)
  }

  /** Events are value-changing swaps of returned calls, each at most once; none is missing. */
  ghost predicate EventsMatch(r: Race) {
    && Distinct(r.events)
    && (forall i | 0 <= i < |r.events| :: EventOfReturned(r, r.events[i]))
    && (forall i | 0 <= i < |r.swaps| :: EventDue(r, r.swaps[i]) ==> r.swaps[i] in r.events)
  }

  ghost predicate EventOfReturned(r: Race, e: Swap) {
    e in r.swaps && e.before != e.after && e.call < |r.calls| && r.calls[e.call].phase.Returned?
  }

  ghost predicate EventDue(r: Race, s: Swap) {
    s.call < |r.calls| && r.calls[s.call].phase.Returned? && s.before != s.after
  }

  ghost function Changes(swaps: seq<Swap>): nat {
    if swaps == [] then 0 else
      Changes(swaps[..|swaps| - 1]) + if swaps[|swaps| - 1].before != swaps[|swaps| - 1].after then 1 else 0
  }

  /** What a call has read was the value at that time, and its failures are paid for by changes since. */
  ghost predicate ReadsAreHonest(r: Race) {
    forall c | 0 <= c < |r.calls| :: HonestCall(r, r.calls[c])
  }

  ghost predicate HonestCall(r: Race, call: Call) {
    match call.phase
    case Swapping(seen, seenAt) =>
      && seenAt <= |r.swaps| && seen == ValueAt(r.initial, r.swaps, seenAt)
      && call.failures <= Changes(r.swaps[..seenAt])
    case _ => call.failures <= Changes(r.swaps)
  }

  /** The target is the nearest admissible value to the request, and marked if that is another one. */
  ghost predicate Validated(limits: Definition, call: Call)
    requires ValidDefinition(limits)
  {
    (call.target, call.wasClamped) == ApplyValidation(limits, call.requested)
  }

  ghost predicate SameRequest(a: Call, b: Call) {
    a.requested == b.requested && a.target == b.target && a.wasClamped == b.wasClamped
  }

  ghost predicate WithinLimits(r: Race) {
    && ValidDefinition(r.limits) && InRange(r.limits, r.value)
    && forall c <- r.calls :: Validated(r.limits, c)
  }

  ghost predicate Inv(r: Race) {
    && Chain(r) && SwapsByCalls(r) && FinishedHaveSwapped(r) && EventsMatch(r) && ReadsAreHonest(r)
    && WithinLimits(r)
  }

  lemma {:induction false} ChangesGrow(swaps: seq<Swap>, k: nat)
    requires k <= |swaps|
    ensures Changes(swaps[..k]) <= Changes(swaps)
    ensures forall i | k <= i < |swaps| :: swaps[i].before != swaps[i].after ==> Changes(swaps[..k]) < Changes(swaps)
  {
    if k < |swaps| {
      var init := swaps[..|swaps| - 1];
      ChangesGrow(init, k);
      assert init[..k] == swaps[..k];
      assert forall i | 0 <= i < |init| :: init[i] == swaps[i];
    } else {
      assert swaps[..k] == swaps;
    }
  }

  /** If nothing changed the value between swap `k` and now, it is what it was then. */
  lemma {:induction false} ValueChangedSince(r: Race, k: nat) returns (i: nat)
    requires Chain(r) && k <= |r.swaps| && r.value != ValueAt(r.initial, r.swaps, k)
    ensures k <= i < |r.swaps| && r.swaps[i].before != r.swaps[i].after
  {
    i := k;
    while r.swaps[i].before == r.swaps[i].after
      invariant k <= i < |r.swaps| && ValueAt(r.initial, r.swaps, i) == ValueAt(r.initial, r.swaps, k)
      decreases |r.swaps| - i
    {
      i := i + 1;
    }
  }

  // ---------- Each step keeps the invariant ----------

  lemma BeginKeepsHistory(r: Race, call: Call)
    requires SwapsByCalls(r) && FinishedHaveSwapped(r) && EventsMatch(r) && call.phase.Reading?
    ensures var r' := r.(calls := r.calls + [call]); SwapsByCalls(r') && FinishedHaveSwapped(r') && EventsMatch(r')
  {
    var r' := r.(calls := r.calls + [call]);
    assert forall c | 0 <= c < |r.calls| :: r'.calls[c] == r.calls[c];
    assert forall i | 0 <= i < |r.swaps| :: SwapByCall(r.calls, r.swaps[i]);
    assert forall i | 0 <= i < |r.events| :: EventOfReturned(r, r.events[i]);
    assert forall i | 0 <= i < |r.swaps| :: EventDue(r', r.swaps[i]) ==> EventDue(r, r.swaps[i]);
  }

  lemma BeginKeepsReads(r: Race, call: Call)
    requires ReadsAreHonest(r) && call.phase.Reading? && call.failures == 0
    ensures ReadsAreHonest(r.(calls := r.calls + [call]))
  {
    var r' := r.(calls := r.calls + [call]);
    forall c | 0 <= c < |r'.calls| ensures HonestCall(r', r'.calls[c]) {
      if c < |r.calls| { assert HonestCall(r, r.calls[c]); }
    }
  }

  lemma BeginKeepsInv(r: Race, requested: real)
    requires Inv(r)
    ensures Inv(Next(r, Begin(requested)))
  {
    var call := NewCall(r.limits, requested);
    BeginKeepsHistory(r, call);
    BeginKeepsReads(r, call);
  }

  /** A call that has not swapped moves to another such phase. */
  lemma PendingMoveKeepsHistory(r: Race, c: nat, call: Call, r': Race)
    requires SwapsByCalls(r) && FinishedHaveSwapped(r) && EventsMatch(r) && WithinLimits(r)
    requires c < |r.calls| && !Finished(r.calls[c]) && !Finished(call) && SameRequest(call, r.calls[c])
    requires r' == r.(calls := r.calls[c := call])
    ensures SwapsByCalls(r') && FinishedHaveSwapped(r') && EventsMatch(r') && WithinLimits(r')
  {
    forall i | 0 <= i < |r.swaps| ensures SwapByCall(r'.calls, r.swaps[i]) && r.swaps[i].call != c {
      assert SwapByCall(r.calls, r.swaps[i]);
    }
    forall i | 0 <= i < |r.events| ensures EventOfReturned(r', r.events[i]) {
      assert EventOfReturned(r, r.events[i]);
    }
    forall i | 0 <= i < |r.swaps| && EventDue(r', r.swaps[i]) ensures r.swaps[i] in r.events {
      assert EventDue(r, r.swaps[i]);
    }
    assert r.calls[c] in r.calls;
    forall x | x in r'.calls ensures Validated(r.limits, x) {
      if x != call { assert x in r.calls; }
    }
  }

  lemma PendingMoveKeepsReads(r: Race, c: nat, call: Call, r': Race)
    requires ReadsAreHonest(r) && c < |r.calls| && HonestCall(r, call)
    requires r' == r.(calls := r.calls[c := call])
    ensures ReadsAreHonest(r')
  {
    forall d | 0 <= d < |r'.calls| ensures HonestCall(r', r'.calls[d]) {
      assert HonestCall(r, if d == c then call else r.calls[d]);
    }
  }

  lemma ReadKeepsInv(r: Race, c: nat)
    requires Inv(r)
    ensures Inv(Next(r, Read(c)))
  {
    if c < |r.calls| && r.calls[c].phase.Reading? {
      var call := r.calls[c].(phase := Swapping(r.value, |r.swaps|));
      assert r.swaps[..|r.swaps|] == r.swaps;
      assert HonestCall(r, r.calls[c]) && HonestCall(r, call);
      PendingMoveKeepsHistory(r, c, call, Next(r, Read(c)));
      PendingMoveKeepsReads(r, c, call, Next(r, Read(c)));
    }
  }

  lemma FailureIsPaidFor(r: Race, c: nat)
    requires Chain(r) && ReadsAreHonest(r)
    requires c < |r.calls| && r.calls[c].phase.Swapping? && r.value != r.calls[c].phase.seen
    ensures r.calls[c].failures + 1 <= Changes(r.swaps)
  {
    assert HonestCall(r, r.calls[c]);
    var i := ValueChangedSince(r, r.calls[c].phase.seenAt);
    ChangesGrow(r.swaps, r.calls[c].phase.seenAt);
  }

  lemma FailedKeepsReads(r: Race, c: nat)
    requires Chain(r) && ReadsAreHonest(r)
    requires c < |r.calls| && r.calls[c].phase.Swapping? && r.value != r.calls[c].phase.seen
    ensures ReadsAreHonest(Failed(r, c))
  {
    FailureIsPaidFor(r, c);
    PendingMoveKeepsReads(r, c, Failed(r, c).calls[c], Failed(r, c));
  }

  lemma FailedSwapKeepsInv(r: Race, c: nat)
    requires Inv(r) && c < |r.calls| && r.calls[c].phase.Swapping? && r.value != r.calls[c].phase.seen
    ensures Inv(Failed(r, c))
  {
    FailedKeepsReads(r, c);
    PendingMoveKeepsHistory(r, c, Failed(r, c).calls[c], Failed(r, c));
  }

  lemma SwapKeepsReads(r: Race, r': Race, s: Swap)
    requires ReadsAreHonest(r) && r'.swaps == r.swaps + [s] && r'.initial == r.initial && |r'.calls| == |r.calls|
    requires forall d | 0 <= d < |r.calls| ::
      r'.calls[d] == r.calls[d] || (Finished(r'.calls[d]) && r'.calls[d].failures == r.calls[d].failures)
    ensures ReadsAreHonest(r')
  {
    assert r'.swaps[..|r.swaps|] == r.swaps;
    forall d | 0 <= d < |r'.calls| ensures HonestCall(r', r'.calls[d]) {
      assert HonestCall(r, r.calls[d]);
      match r.calls[d].phase
      case Swapping(seen, seenAt) =>
        assert r'.swaps[..seenAt] == r.swaps[..seenAt];
        ChangesGrow(r'.swaps, seenAt);
      case _ =>
        ChangesGrow(r'.swaps, |r.swaps|);
    }
  }

  lemma SwapKeepsCalls(r: Race, c: nat)
    requires SwapsByCalls(r) && FinishedHaveSwapped(r) && c < |r.calls| && r.calls[c].phase.Swapping?
    ensures SwapsByCalls(Swapped(r, c)) && FinishedHaveSwapped(Swapped(r, c))
  {
    var r' := Swapped(r, c);
    forall i | 0 <= i < |r.swaps| ensures SwapByCall(r'.calls, r'.swaps[i]) && r.swaps[i].call != c {
      assert SwapByCall(r.calls, r.swaps[i]);
    }
    assert r'.swaps[|r.swaps|].call == c;
    forall d | 0 <= d < |r'.calls| && Finished(r'.calls[d]) ensures HasSwapped(r'.swaps, d) {
      if d != c {
        assert HasSwapped(r.swaps, d);
        var i :| 0 <= i < |r.swaps| && r.swaps[i].call == d;
        assert r'.swaps[i].call == d;
      }
    }
  }

  lemma SwapKeepsEvents(r: Race, c: nat)
    requires SwapsByCalls(r) && EventsMatch(r) && c < |r.calls| && r.calls[c].phase.Swapping?
    ensures EventsMatch(Swapped(r, c))
  {
    var r' := Swapped(r, c);
    forall i | 0 <= i < |r.events| ensures EventOfReturned(r', r.events[i]) {
      assert EventOfReturned(r, r.events[i]);
    }
    forall i | 0 <= i < |r'.swaps| && EventDue(r', r'.swaps[i]) ensures r'.swaps[i] in r'.events {
      if i < |r.swaps| {
        assert SwapByCall(r.calls, r.swaps[i]);
        assert EventDue(r, r.swaps[i]);
      }
    }
  }

  lemma SwapKeepsChain(r: Race, c: nat)
    requires Chain(r) && c < |r.calls| && r.calls[c].phase.Swapping? && r.value == r.calls[c].phase.seen
    ensures Chain(Swapped(r, c))
  {
    var r' := Swapped(r, c);
    forall i | 0 <= i < |r'.swaps| ensures r'.swaps[i].before == ValueAt(r'.initial, r'.swaps, i) {
      if i < |r.swaps| { assert r.swaps[i].before == ValueAt(r.initial, r.swaps, i); }
    }
  }

  lemma SameTargetsKeepLimits(r: Race, r': Race)
    requires WithinLimits(r) && r'.limits == r.limits && |r'.calls| == |r.calls|
    requires forall d | 0 <= d < |r.calls| :: SameRequest(r'.calls[d], r.calls[d])
    requires r'.value == r.value || exists d :: 0 <= d < |r.calls| && r'.value == r.calls[d].target
    ensures WithinLimits(r')
  {
    forall d | 0 <= d < |r'.calls| ensures Validated(r.limits, r.calls[d]) && Validated(r.limits, r'.calls[d]) {
      assert r.calls[d] in r.calls;
    }
  }

  lemma SwapKeepsInv(r: Race, c: nat)
    requires Inv(r) && c < |r.calls| && r.calls[c].phase.Swapping? && r.value == r.calls[c].phase.seen
    ensures Inv(Swapped(r, c))
  {
    SwapKeepsCalls(r, c);
    SwapKeepsEvents(r, c);
    SwapKeepsChain(r, c);
    SwapKeepsReads(r, Swapped(r, c), SwapBy(c, r.calls[c], r.calls[c].phase.seen));
    SameTargetsKeepLimits(r, Swapped(r, c));
  }

  lemma RaisedSwapExists(r: Race, c: nat) returns (k: nat)
    requires SwapsByCalls(r) && FinishedHaveSwapped(r) && c < |r.calls| && r.calls[c].phase.Raising?
    ensures k < |r.swaps| && r.swaps[k] == SwapBy(c, r.calls[c], r.calls[c].phase.seen)
    ensures r.swaps[k].before != r.swaps[k].after
    ensures forall i | 0 <= i < |r.swaps| :: r.swaps[i].call == c ==> i == k
  {
    assert HasSwapped(r.swaps, c);
    k :| 0 <= k < |r.swaps| && r.swaps[k].call == c;
    assert SwapByCall(r.calls, r.swaps[k]);
  }

  lemma RaiseKeepsEvents(r: Race, c: nat, k: nat)
    requires EventsMatch(r) && c < |r.calls| && r.calls[c].phase.Raising?
    requires k < |r.swaps| && r.swaps[k] == SwapBy(c, r.calls[c], r.calls[c].phase.seen)
    requires r.swaps[k].before != r.swaps[k].after
    requires forall i | 0 <= i < |r.swaps| :: r.swaps[i].call == c ==> i == k
    ensures EventsMatch(Raised(r, c))
  {
    var r' := Raised(r, c);
    forall i | 0 <= i < |r.events| ensures EventOfReturned(r', r.events[i]) && r.events[i] != r.swaps[k] {
      assert EventOfReturned(r, r.events[i]);
    }
    assert EventOfReturned(r', r.swaps[k]);
    forall i | 0 <= i < |r.swaps| && EventDue(r', r.swaps[i]) ensures r.swaps[i] in r'.events {
      if i != k { assert EventDue(r, r.swaps[i]); }
    }
  }

  lemma RaiseKeepsCalls(r: Race, c: nat)
    requires SwapsByCalls(r) && FinishedHaveSwapped(r) && ReadsAreHonest(r)
    requires c < |r.calls| && r.calls[c].phase.Raising?
    ensures SwapsByCalls(Raised(r, c)) && FinishedHaveSwapped(Raised(r, c)) && ReadsAreHonest(Raised(r, c))
  {
    var r' := Raised(r, c);
    forall i | 0 <= i < |r.swaps| ensures SwapByCall(r'.calls, r.swaps[i]) {
      assert SwapByCall(r.calls, r.swaps[i]);
    }
    forall d | 0 <= d < |r'.calls| && Finished(r'.calls[d]) ensures HasSwapped(r'.swaps, d) {
      assert HasSwapped(r.swaps, d);
    }
    forall d | 0 <= d < |r'.calls| ensures HonestCall(r', r'.calls[d]) {
      assert HonestCall(r, r.calls[d]);
    }
  }

  lemma RaiseKeepsInv(r: Race, c: nat)
    requires Inv(r) && c < |r.calls| && r.calls[c].phase.Raising?
    ensures Inv(Raised(r, c))
  {
    var k := RaisedSwapExists(r, c);
    RaiseKeepsEvents(r, c, k);
    RaiseKeepsCalls(r, c);
    SameTargetsKeepLimits(r, Raised(r, c));
  }

  lemma StepKeepsInv(r: Race, step: Step)
    requires Inv(r)
    ensures Inv(Next(r, step))
  {
    match step
    case Begin(requested) => BeginKeepsInv(r, requested);
    case Read(c) => ReadKeepsInv(r, c);
    case TrySwap(c) =>
      if c < |r.calls| && r.calls[c].phase.Swapping? {
        if r.value == r.calls[c].phase.seen { SwapKeepsInv(r, c); } else { FailedSwapKeepsInv(r, c); }
      }
    case Raise(c) =>
      if c < |r.calls| && r.calls[c].phase.Raising? { RaiseKeepsInv(r, c); }
  }

  lemma {:induction false} EveryScheduleKeepsInv(limits: Definition, initial: real, threads: nat, schedule: seq<Step>)
    requires ValidDefinition(limits) && InRange(limits, initial)
    ensures Inv(Run(Start(limits, initial, threads), schedule))
  {
    if schedule != [] {
      var init := schedule[..|schedule| - 1];
      EveryScheduleKeepsInv(limits, initial, threads, init);
      StepKeepsInv(Run(Start(limits, initial, threads), init), schedule[|schedule| - 1]);
    }
  }

  /** A state that some schedule leads to. */
  ghost predicate Reachable(limits: Definition, initial: real, threads: nat, r: Race) {
    && ValidDefinition(limits) && InRange(limits, initial)
    && exists schedule :: r == Run(Start(limits, initial, threads), schedule)
  }

  lemma ReachableInv(limits: Definition, initial: real, threads: nat, r: Race)
    requires Reachable(limits, initial, threads, r)
    ensures Inv(r) && r.initial == initial && r.limits == limits && r.threads == threads
  {
    var schedule :| r == Run(Start(limits, initial, threads), schedule);
    EveryScheduleKeepsInv(limits, initial, threads, schedule);
  }

  // ---------- What this means for the callers ----------

  /** The events of a returned call are its swap, if that changed the value. */
  lemma EventsOfCall(r: Race, c: nat, i: nat)
    requires EventsMatch(r) && i < |r.swaps| && r.swaps[i].call == c && c < |r.calls| && r.calls[c].phase.Returned?
    requires forall k | 0 <= k < |r.swaps| && r.swaps[k].call == c :: k == i
    ensures forall k | 0 <= k < |r.events| :: r.events[k].call == c ==> r.events[k] == r.swaps[i]
    ensures r.swaps[i].before != r.swaps[i].after <==> r.swaps[i] in r.events
  {
    forall k | 0 <= k < |r.events| && r.events[k].call == c ensures r.events[k] == r.swaps[i] {
      assert EventOfReturned(r, r.events[k]);
      var m :| 0 <= m < |r.swaps| && r.swaps[m] == r.events[k];
    }
    if r.swaps[i] in r.events {
      var k :| 0 <= k < |r.events| && r.events[k] == r.swaps[i];
      assert EventOfReturned(r, r.events[k]);
    }
    if r.swaps[i].before != r.swaps[i].after {
      assert EventDue(r, r.swaps[i]);
    }
  }

  /** A Set that has returned swapped exactly once, storing the nearest admissible value to its request, at
      an instant at which the parameter held `before`; it raised its event, with that pair of values, the
      request and whether it was clamped, and once, exactly if the value changed. */
  lemma ReturnedSetTookEffectOnce(limits: Definition, initial: real, threads: nat, r: Race, c: nat) returns (i: nat)
    requires Reachable(limits, initial, threads, r) && c < |r.calls| && r.calls[c].phase.Returned?
    ensures i < |r.swaps| && r.swaps[i].call == c && r.swaps[i].requested == r.calls[c].requested
    ensures (r.swaps[i].after, r.swaps[i].wasClamped) == ApplyValidation(limits, r.calls[c].requested)
    ensures r.swaps[i].before == ValueAt(initial, r.swaps, i)
    ensures forall k | 0 <= k < |r.swaps| :: r.swaps[k].call == c ==> k == i
    ensures r.swaps[i].before != r.swaps[i].after <==> r.swaps[i] in r.events
    ensures forall k | 0 <= k < |r.events| :: r.events[k].call == c ==> r.events[k] == r.swaps[i]
    ensures Distinct(r.events)
  {
    ReachableInv(limits, initial, threads, r);
    assert HasSwapped(r.swaps, c);
    i :| 0 <= i < |r.swaps| && r.swaps[i].call == c;
    assert SwapByCall(r.calls, r.swaps[i]) && r.calls[c] in r.calls;
    EventsOfCall(r, c, i);
  }

  /** The parameter holds what the last successful swap stored, and is always within its limits. */
  lemma ValueIsLastSwap(limits: Definition, initial: real, threads: nat, r: Race)
    requires Reachable(limits, initial, threads, r)
    ensures r.value == if r.swaps == [] then initial else r.swaps[|r.swaps| - 1].after
    ensures forall i | 0 < i < |r.swaps| :: r.swaps[i].before == r.swaps[i - 1].after
    ensures InRange(limits, r.value)
  {
    ReachableInv(limits, initial, threads, r);
  }

  /** A swap about to fail means that some other call changed the value since the read. */
  lemma FailureBlamesAnother(limits: Definition, initial: real, threads: nat, r: Race, c: nat) returns (i: nat)
    requires Reachable(limits, initial, threads, r)
    requires c < |r.calls| && r.calls[c].phase.Swapping? && r.value != r.calls[c].phase.seen
    ensures r.calls[c].phase.seenAt <= i < |r.swaps|
    ensures r.swaps[i].call != c && r.swaps[i].before != r.swaps[i].after
  {
    ReachableInv(limits, initial, threads, r);
    assert HonestCall(r, r.calls[c]);
    i := ValueChangedSince(r, r.calls[c].phase.seenAt);
    assert SwapByCall(r.calls, r.swaps[i]);
  }

  /** A call never retries more often than the value has been changed. */
  lemma RetriesAreBounded(limits: Definition, initial: real, threads: nat, r: Race, c: nat)
    requires Reachable(limits, initial, threads, r) && c < |r.calls|
    ensures r.calls[c].failures <= Changes(r.swaps)
  {
    ReachableInv(limits, initial, threads, r);
    assert HonestCall(r, r.calls[c]);
    if r.calls[c].phase.Swapping? { ChangesGrow(r.swaps, r.calls[c].phase.seenAt); }
  }

  /** The step that a call is about to take. */
  function OwnStep(r: Race, c: nat): Step
    requires c < |r.calls|
  {
    match r.calls[c].phase
    case Reading => Read(c)
    case Swapping(_, _) => TrySwap(c)
    case Raising(_) => Raise(c)
    case Returned => Read(c)
  }

  /** `k` steps of call `c`, and no others. */
  function Alone(r: Race, c: nat, k: nat): (r': Race)
    requires ValidDefinition(r.limits) && c < |r.calls|
    ensures r'.limits == r.limits && |r'.calls| == |r.calls|
    decreases k
  {
    if k == 0 then r else Alone(Next(r, OwnStep(r, c)), c, k - 1)
  }

  lemma ReadThenSwap(r: Race, c: nat)
    requires ValidDefinition(r.limits) && c < |r.calls| && r.calls[c].phase.Reading?
    ensures Alone(r, c, 3).calls[c].phase == Returned
  {
    var r1 := Next(r, Read(c));
    assert r1.calls[c].phase == Swapping(r1.value, |r1.swaps|);
    SwapThenRaise(r1, c);
    assert Alone(r, c, 3) == Alone(r1, c, 2);
  }

  lemma SwapThenRaise(r: Race, c: nat)
    requires ValidDefinition(r.limits) && c < |r.calls|
    requires r.calls[c].phase.Swapping? && r.calls[c].phase.seen == r.value
    ensures Alone(r, c, 2).calls[c].phase == Returned
  {
    var r1 := Next(r, TrySwap(c));
    assert Alone(r, c, 2) == Alone(r1, c, 1) == Next(r1, OwnStep(r1, c));
  }

  /** Left alone, a call returns within four of its own steps wherever it is, and within three if what it has
      read, or is about to read, is the current value. */
  lemma UndisturbedCallReturns(r: Race, c: nat)
    requires ValidDefinition(r.limits) && c < |r.calls|
    ensures Alone(r, c, 4).calls[c].phase == Returned
    ensures !(r.calls[c].phase.Swapping? && r.calls[c].phase.seen != r.value)
        ==> Alone(r, c, 3).calls[c].phase == Returned
  {
    var r1 := Next(r, OwnStep(r, c));
    match r.calls[c].phase
    case Reading =>
      ReadThenSwap(r, c);
      OnceReturned(r, c, 3);
    case Swapping(seen, _) =>
      if seen == r.value {
        SwapThenRaise(r, c);
        OnceReturned(r, c, 2);
        OnceReturned(r, c, 3);
      } else {
        ReadThenSwap(r1, c);
        assert Alone(r, c, 4) == Alone(r1, c, 3);
      }
    case _ =>
      assert Alone(r, c, 1) == Alone(r1, c, 0) == r1;
      OnceReturned(r, c, 1);
      OnceReturned(r, c, 2);
      OnceReturned(r, c, 3);
  }

  /** A further step of a call that has returned changes nothing. */
  lemma {:induction false} OnceReturned(r: Race, c: nat, k: nat)
    requires ValidDefinition(r.limits) && c < |r.calls| && Alone(r, c, k).calls[c].phase == Returned
    ensures Alone(r, c, k + 1).calls[c].phase == Returned
    decreases k
  {
    if k == 0 {
      assert Alone(r, c, 1) == Alone(Next(r, Read(c)), c, 0) == r;
    } else {
      OnceReturned(Next(r, OwnStep(r, c)), c, k - 1);
    }
  }

  // ---------- What a subscriber can rely on ----------

  /** The swaps that changed the value, in order. */
  ghost function ChangesAmong(swaps: seq<Swap>): seq<Swap> {
    if swaps == [] then []
    else
      var last := swaps[|swaps| - 1];
      ChangesAmong(swaps[..|swaps| - 1]) + if last.before != last.after then [last] else []
  }

  lemma ChangesAppend(swaps: seq<Swap>, s: Swap)
    ensures ChangesAmong(swaps + [s]) == ChangesAmong(swaps) + if s.before != s.after then [s] else []
  {
    assert (swaps + [s])[..|swaps|] == swaps;
  }

  ghost predicate Quiescent(r: Race) { forall c <- r.calls :: c.phase.Returned? }

  /** A subscriber that keeps the value of the latest event has the parameter's value. */
  ghost predicate EventsTellValue(r: Race) {
    r.value == if r.events == [] then r.initial else r.events[|r.events| - 1].after
  }

  lemma {:induction false} LastChangeIsValue(initial: real, swaps: seq<Swap>)
    requires forall i | 0 <= i < |swaps| :: swaps[i].before == ValueAt(initial, swaps, i)
    ensures var changes := ChangesAmong(swaps);
      ValueAt(initial, swaps, |swaps|) == if changes == [] then initial else changes[|changes| - 1].after
  {
    if swaps != [] {
      var init := swaps[..|swaps| - 1];
      forall i | 0 <= i < |init| ensures init[i].before == ValueAt(initial, init, i) {
        assert swaps[i].before == ValueAt(initial, swaps, i);
      }
      LastChangeIsValue(initial, init);
    }
  }

  /** The event that a call has yet to raise. */
  ghost function Due(c: nat, call: Call): seq<Swap> {
    if call.phase.Raising? then [SwapBy(c, call, call.phase.seen)] else []
  }

  /** All calls have returned but perhaps `c`; the events so far and the one it may have yet to raise are the
      changes in order. */
  ghost predicate OnlyCall(r: Race, c: nat) {
    && c <= |r.calls|
    && (forall d | 0 <= d < |r.calls| && d != c :: r.calls[d].phase.Returned?)
    && r.events + (if c < |r.calls| then Due(c, r.calls[c]) else []) == ChangesAmong(r.swaps)
  }

  lemma OnlyCallMoves(r: Race, step: Step, c: nat)
    requires ValidDefinition(r.limits) && OnlyCall(r, c) && !step.Begin? && step.c == c
    ensures OnlyCall(Next(r, step), c)
  {
    if c < |r.calls| && step.TrySwap? && r.calls[c].phase.Swapping? {
      ChangesAppend(r.swaps, SwapBy(c, r.calls[c], r.calls[c].phase.seen));
    }
  }

  lemma OneByOne(r: Race, step: Step, c: nat) returns (c': nat)
    requires ValidDefinition(r.limits) && OnlyCall(r, c) && r.threads <= 1
    ensures OnlyCall(Next(r, step), c')
  {
    c' := c;
    if step.Begin? {
      if |InProgress(r.calls)| < r.threads {
        assert InProgress(r.calls) == {};
        forall d: nat | d < |r.calls| ensures r.calls[d].phase.Returned? { assert d !in InProgress(r.calls); }
        c' := |r.calls|;
      }
    } else if step.c == c {
      OnlyCallMoves(r, step, c);
    }
  }

  lemma {:induction false} AlwaysOneByOne(limits: Definition, initial: real, threads: nat, schedule: seq<Step>)
    returns (c: nat)
    requires ValidDefinition(limits) && threads <= 1
    ensures OnlyCall(Run(Start(limits, initial, threads), schedule), c)
  {
    c := 0;
    if schedule != [] {
      var init := schedule[..|schedule| - 1];
      c := AlwaysOneByOne(limits, initial, threads, init);
      c := OneByOne(Run(Start(limits, initial, threads), init), schedule[|schedule| - 1], c);
    }
  }

  lemma NothingDue(r: Race, c: nat)
    requires OnlyCall(r, c) && Quiescent(r) && Chain(r)
    ensures r.events == ChangesAmong(r.swaps) && EventsTellValue(r)
  {
    if c < |r.calls| { assert r.calls[c] in r.calls; }
    LastChangeIsValue(r.initial, r.swaps);
  }

  /** With one Set at a time the events are the changes, in the order of the swaps: all of them when no call
      is in progress, and all but perhaps the last one at any other moment. */
  lemma SerialEventsFollowSwaps(limits: Definition, initial: real, threads: nat, r: Race)
    requires Reachable(limits, initial, threads, r) && threads <= 1
    ensures r.events <= ChangesAmong(r.swaps) && |ChangesAmong(r.swaps)| <= |r.events| + 1
    ensures Quiescent(r) ==> r.events == ChangesAmong(r.swaps) && EventsTellValue(r)
  {
    ReachableInv(limits, initial, threads, r);
    var schedule :| r == Run(Start(limits, initial, threads), schedule);
    var c := AlwaysOneByOne(limits, initial, threads, schedule);
    if Quiescent(r) { NothingDue(r, c); }
  }

  /** The limits leave no choice. */
  predicate OnlyOneValue(limits: Definition) {
    limits.min.Some? && limits.max.Some? && limits.min.value == limits.max.value
  }

  lemma OneValueNeverChanges(limits: Definition, initial: real, threads: nat, r: Race)
    requires Reachable(limits, initial, threads, r) && OnlyOneValue(limits)
    ensures r.events == [] && EventsTellValue(r)
  {
    ReachableInv(limits, initial, threads, r);
    forall i | 0 <= i < |r.swaps| ensures InRange(limits, r.swaps[i].after) {
      assert SwapByCall(r.calls, r.swaps[i]) && r.calls[r.swaps[i].call] in r.calls;
    }
    forall i | 0 <= i < |r.swaps| ensures r.swaps[i].before == r.swaps[i].after {
      assert r.swaps[i].before == ValueAt(initial, r.swaps, i) && InRange(limits, ValueAt(initial, r.swaps, i));
    }
    assert |r.events| > 0 ==> EventOfReturned(r, r.events[0]);
  }

  /** Another value that the limits admit. */
  function OtherValue(limits: Definition, value: real): (other: real)
    requires ValidDefinition(limits) && InRange(limits, value) && !OnlyOneValue(limits)
    ensures other != value && InRange(limits, other)
  {
    if limits.max.None? then value + 1.0
    else if value < limits.max.value then limits.max.value
    else if limits.min.None? then value - 1.0
    else limits.min.value
  }

  lemma RunOne(r: Race, schedule: seq<Step>, step: Step)
    requires ValidDefinition(r.limits)
    ensures Run(r, schedule + [step]) == Next(Run(r, schedule), step)
  {
    assert (schedule + [step])[..|schedule|] == schedule;
  }

  lemma ReachOn(limits: Definition, initial: real, threads: nat, r: Race, step: Step) returns (r': Race)
    requires Reachable(limits, initial, threads, r) && r.limits == limits
    ensures r' == Next(r, step) && Reachable(limits, initial, threads, r') && r'.limits == limits
  {
    var schedule :| r == Run(Start(limits, initial, threads), schedule);
    RunOne(Start(limits, initial, threads), schedule, step);
    r' := Next(r, step);
  }

  /** A call away from `initial` has swapped, and one back to it has begun. */
  lemma AwayAndBack(limits: Definition, initial: real, threads: nat, other: real) returns (r: Race)
    requires ValidDefinition(limits) && InRange(limits, initial) && InRange(limits, other) && other != initial
    requires threads >= 2
    ensures Reachable(limits, initial, threads, r) && r.limits == limits && r.initial == initial && r.value == other
    ensures r.calls == [Call(other, other, false, Raising(initial), 0), Call(initial, initial, false, Reading, 0)]
    ensures r.events == []
  {
    var x, y := NewCall(limits, other), NewCall(limits, initial);
    r := Start(limits, initial, threads);
    assert r == Run(r, []);
    assert InProgress([]) == {} && InProgress([x]) == {0};
    r := ReachOn(limits, initial, threads, r, Begin(other));
    assert r.calls == [x];
    r := ReachOn(limits, initial, threads, r, Begin(initial));
    assert r.calls == [x, y];
    r := ReachOn(limits, initial, threads, r, Read(0));
    r := ReachOn(limits, initial, threads, r, TrySwap(0));
  }

  /** Two Sets at a time can raise their events in the other order than they swapped, whatever the limits as
      long as they admit two values: the latest event then carries a value that the parameter no longer has. */
  lemma EventsCanOvertake(limits: Definition, initial: real, threads: nat) returns (r: Race)
    requires ValidDefinition(limits) && InRange(limits, initial) && !OnlyOneValue(limits) && threads >= 2
    ensures Reachable(limits, initial, threads, r) && Quiescent(r) && !EventsTellValue(r)
  {
    var other := OtherValue(limits, initial);
    r := AwayAndBack(limits, initial, threads, other);
    r := ReachOn(limits, initial, threads, r, Read(1));
    r := ReachOn(limits, initial, threads, r, TrySwap(1));
    assert r.value == initial && r.calls[0].phase == Raising(initial) && r.calls[1].phase == Raising(other);
    r := ReachOn(limits, initial, threads, r, Raise(1));
    r := ReachOn(limits, initial, threads, r, Raise(0));
    assert |r.events| == 2 && r.events[1].after == other;
  }

  /** When all calls have returned, the latest event tells the parameter's value under every interleaving
      exactly if calls do not overlap, or the limits admit one value only. */
  lemma EventsTellValueIff(limits: Definition, initial: real, threads: nat)
    requires ValidDefinition(limits) && InRange(limits, initial)
    ensures (forall r | Reachable(limits, initial, threads, r) && Quiescent(r) :: EventsTellValue(r))
        <==> threads <= 1 || OnlyOneValue(limits)
  {
    if threads <= 1 {
      forall r | Reachable(limits, initial, threads, r) && Quiescent(r) ensures EventsTellValue(r) {
        SerialEventsFollowSwaps(limits, initial, threads, r);
      }
    } else if OnlyOneValue(limits) {
      forall r | Reachable(limits, initial, threads, r) && Quiescent(r) ensures EventsTellValue(r) {
        OneValueNeverChanges(limits, initial, threads, r);
      }
    } else {
      var r := EventsCanOvertake(limits, initial, threads);
    }
  }
}
