/** The runner under concurrency: one real-time loop, any number of `StepOnce` calls beside it, Pause and
    Resume at any moment, and the step lock, under every interleaving.

    A call of StepOnce is a process of its own, so a schedule may overlap any number of them in any way;
    `Step(n)` is n calls, one after another. */
module RunnerRace {
  import opened Clock

  datatype Phase =
    | Waiting                    // for the step lock
    | Holding                    // the lock; about to advance the clock
    | Ready(time: SimTime)       // has advanced the clock; about to tick the system
    | Ticked                     // has ticked the system; about to leave the lock
    | Returned

  datatype Call = Call(byLoop: bool, phase: Phase)

  datatype Delivery = Delivery(call: nat, time: SimTime)

  /** `deliveries` records the ticks that the system receives, and steers nothing. */
  datatype Runner = Runner(step: real, time: SimTime, paused: bool, locked: bool, calls: seq<Call>,
                           deliveries: seq<Delivery>)

  /** `LoopTurn` is a turn of the real-time loop: it looks at the flag and, unless paused, calls StepOnce. */
  datatype Event =
    | Pause | Resume | StepOnce | LoopTurn
    | Enter(c: nat) | Advance(c: nat) | Deliver(c: nat) | Leave(c: nat)

  function Start(step: real): Runner {
    Runner(step, ZERO, false, false, [], [])
  }

  predicate Is(r: Runner, c: nat, phase: Phase) {
    c < |r.calls| && r.calls[c].phase == phase
  }

  function Moved(r: Runner, c: nat, phase: Phase): seq<Call>
    requires c < |r.calls|
  {
    r.calls[c := r.calls[c].(phase := phase)]
  }

  /** The loop is one thread: it takes its turns between its calls. */
  predicate LoopIsBusy(r: Runner) {
    exists c :: 0 <= c < |r.calls| && r.calls[c].byLoop && r.calls[c].phase != Returned
  }

  function WithCall(r: Runner, byLoop: bool): Runner {
    r.(calls := r.calls + [Call(byLoop, Waiting)])
  }

  /** One atomic step; an event that does not fit the state does nothing. */
  function Next(r: Runner, e: Event): Runner {
    match e
    case Pause => r.(paused := true)
    case Resume => r.(paused := false)
    case StepOnce => WithCall(r, false)
    case LoopTurn => if r.paused || LoopIsBusy(r) then r else WithCall(r, true)
    case Enter(c) => if Is(r, c, Waiting) && !r.locked then r.(locked := true, calls := Moved(r, c, Holding)) else r
    case Advance(c) =>
      if Is(r, c, Holding) then
        r.(time := r.time.Advance(r.step), calls := Moved(r, c, Ready(r.time.Advance(r.step))))
      else r
    case Deliver(c) =>
      if c < |r.calls| && r.calls[c].phase.Ready? then
        r.(deliveries := r.deliveries + [Delivery(c, r.calls[c].phase.time)], calls := Moved(r, c, Ticked))
      else r
    case Leave(c) => if Is(r, c, Ticked) then r.(locked := false, calls := Moved(r, c, Returned)) else r
  }

  ghost function Run(r: Runner, schedule: seq<Event>): (r': Runner)
    ensures r'.step == r.step
  {
    if schedule == [] then r else Next(Run(r, schedule[..|schedule| - 1]), schedule[|schedule| - 1])
  }

  ghost predicate Reachable(step: real, r: Runner) {
    exists schedule :: r == Run(Start(step), schedule)
  }

  // ---------- What every step keeps ----------

  predicate Inside(phase: Phase) { phase.Holding? || phase.Ready? || phase.Ticked? }

  /** At most one call is inside the lock, and just when the lock is taken. */
  ghost predicate Exclusive(r: Runner) {
    && (r.locked <==> exists c :: 0 <= c < |r.calls| && Inside(r.calls[c].phase))
    && (forall c, d | 0 <= c < d < |r.calls| :: !(Inside(r.calls[c].phase) && Inside(r.calls[d].phase)))
  }

  /** How far the clock is ahead of the deliveries. */
  ghost predicate Ahead(r: Runner) {
    exists c :: 0 <= c < |r.calls| && r.calls[c].phase.Ready?
  }

  /** The clock stands at the last delivery, or one step ahead of it on behalf of the call inside. */
  ghost predicate ClockFits(r: Runner) {
    && r.time == AfterTicks(r.step, if Ahead(r) then |r.deliveries| + 1 else |r.deliveries|)
    && (forall c | 0 <= c < |r.calls| && r.calls[c].phase.Ready? :: r.calls[c].phase.time == r.time)
  }

  ghost predicate InOrder(r: Runner) {
    forall k | 0 <= k < |r.deliveries| :: r.deliveries[k].time == AfterTicks(r.step, k + 1)
  }

  predicate HasTicked(phase: Phase) { phase.Ticked? || phase.Returned? }

  /** The calls that are through have delivered one tick each, the others none. */
  ghost predicate OneEach(r: Runner) {
    && (forall k | 0 <= k < |r.deliveries| ::
          r.deliveries[k].call < |r.calls| && HasTicked(r.calls[r.deliveries[k].call].phase))
    && (forall j, k | 0 <= j < k < |r.deliveries| :: r.deliveries[j].call != r.deliveries[k].call)
    && (forall c | 0 <= c < |r.calls| && HasTicked(r.calls[c].phase) :: Delivers(r.deliveries, c))
  }

  ghost predicate Delivers(deliveries: seq<Delivery>, c: nat) {
    exists k :: 0 <= k < |deliveries| && deliveries[k].call == c
  }

  ghost predicate OneLoopCall(r: Runner) {
    forall c, d | 0 <= c < d < |r.calls| && r.calls[c].byLoop && r.calls[d].byLoop :: r.calls[c].phase == Returned
  }

  ghost predicate Inv(r: Runner) {
    Exclusive(r) && ClockFits(r) && InOrder(r) && OneEach(r) && OneLoopCall(r)
  }

  lemma CallKeepsExclusive(r: Runner, byLoop: bool)
    requires Exclusive(r)
    ensures Exclusive(WithCall(r, byLoop))
  {
    var r' := WithCall(r, byLoop);
    assert forall c | 0 <= c < |r.calls| :: r'.calls[c] == r.calls[c];
    if r.locked {
      var c :| 0 <= c < |r.calls| && Inside(r.calls[c].phase);
      assert Inside(r'.calls[c].phase);
    }
  }

  lemma CallKeepsClock(r: Runner, byLoop: bool)
    requires ClockFits(r)
    ensures ClockFits(WithCall(r, byLoop))
  {
    assert forall c | 0 <= c < |r.calls| :: WithCall(r, byLoop).calls[c] == r.calls[c];
    assert Ahead(WithCall(r, byLoop)) <==> Ahead(r);
  }

  /** A new call changes nothing else. */
  lemma CallKeepsInv(r: Runner, byLoop: bool)
    requires Inv(r) && (byLoop ==> !LoopIsBusy(r))
    ensures Inv(WithCall(r, byLoop))
  {
    CallKeepsExclusive(r, byLoop);
    CallKeepsClock(r, byLoop);
    assert forall c | 0 <= c < |r.calls| :: WithCall(r, byLoop).calls[c] == r.calls[c];
  }

  lemma EnterKeepsInv(r: Runner, c: nat)
    requires Inv(r)
    ensures Inv(Next(r, Enter(c)))
  {
    var r' := Next(r, Enter(c));
    if r' != r {
      assert Inside(r'.calls[c].phase);
      assert forall d | 0 <= d < |r.calls| && d != c :: r'.calls[d] == r.calls[d];
      assert Ahead(r') <==> Ahead(r);
    }
  }

  lemma AdvanceKeepsInv(r: Runner, c: nat)
    requires Inv(r)
    ensures Inv(Next(r, Advance(c)))
  {
    var r' := Next(r, Advance(c));
    if Is(r, c, Holding) {
      assert forall d | 0 <= d < |r.calls| && d != c :: r'.calls[d] == r.calls[d] && !Inside(r.calls[d].phase);
      assert !Ahead(r) && r'.calls[c].phase.Ready? && Ahead(r');
      assert Inside(r'.calls[c].phase);
    }
  }

  lemma DeliverKeepsInv(r: Runner, c: nat)
    requires Inv(r)
    ensures Inv(Next(r, Deliver(c)))
  {
    var r' := Next(r, Deliver(c));
    if c < |r.calls| && r.calls[c].phase.Ready? {
      assert forall d | 0 <= d < |r.calls| && d != c :: r'.calls[d] == r.calls[d] && !Inside(r.calls[d].phase);
      assert Ahead(r) && !Ahead(r');
      assert Inside(r'.calls[c].phase);
      DeliverKeepsOneEach(r, c);
    }
  }

  lemma DeliverKeepsOneEach(r: Runner, c: nat)
    requires OneEach(r) && c < |r.calls| && r.calls[c].phase.Ready?
    ensures OneEach(Next(r, Deliver(c)))
  {
    var r' := Next(r, Deliver(c));
    var n := |r.deliveries|;
    assert r'.deliveries[n].call == c;
    forall d | 0 <= d < |r'.calls| && HasTicked(r'.calls[d].phase) ensures Delivers(r'.deliveries, d) {
      if d != c {
        var k :| 0 <= k < n && r.deliveries[k].call == d;
        assert r'.deliveries[k].call == d;
      }
    }
  }

  lemma LeaveKeepsInv(r: Runner, c: nat)
    requires Inv(r)
    ensures Inv(Next(r, Leave(c)))
  {
    var r' := Next(r, Leave(c));
    if Is(r, c, Ticked) {
      assert forall d | 0 <= d < |r.calls| && d != c :: r'.calls[d] == r.calls[d] && !Inside(r.calls[d].phase);
      assert Ahead(r') <==> Ahead(r);
      assert Inside(r.calls[c].phase);
    }
  }

  lemma StepKeepsInv(r: Runner, e: Event)
    requires Inv(r)
    ensures Inv(Next(r, e))
  {
    match e
    case Pause =>
      assert Ahead(Next(r, e)) <==> Ahead(r);
    case Resume =>
      assert Ahead(Next(r, e)) <==> Ahead(r);
    case StepOnce => CallKeepsInv(r, false);
    case LoopTurn => if !r.paused && !LoopIsBusy(r) { CallKeepsInv(r, true); }
    case Enter(c) => EnterKeepsInv(r, c);
    case Advance(c) => AdvanceKeepsInv(r, c);
    case Deliver(c) => DeliverKeepsInv(r, c);
    case Leave(c) => LeaveKeepsInv(r, c);
  }

  lemma {:induction false} EveryScheduleKeepsInv(r: Runner, schedule: seq<Event>)
    requires Inv(r)
    ensures Inv(Run(r, schedule))
  {
    if schedule != [] {
      EveryScheduleKeepsInv(r, schedule[..|schedule| - 1]);
      StepKeepsInv(Run(r, schedule[..|schedule| - 1]), schedule[|schedule| - 1]);
    }
  }

  lemma ReachableInv(step: real, r: Runner)
    requires Reachable(step, r)
    ensures Inv(r) && r.step == step
  {
    var schedule :| r == Run(Start(step), schedule);
    EveryScheduleKeepsInv(Start(step), schedule);
  }

  // ---------- What this means ----------

  /** However loop and callers interleave, the system receives the ticks 1, 2, 3, ... once each and in
      order, each at the time that is that many steps. */
  lemma TicksArriveInOrder(step: real, r: Runner, k: nat)
    requires Reachable(step, r) && k < |r.deliveries|
    ensures r.deliveries[k].time.tick == k + 1
    ensures r.deliveries[k].time.totalSeconds == (k + 1) as real * step
  {
    ReachableInv(step, r);
    TimeIsTickTimesStep(step, k + 1);
  }

  /** A StepOnce that has returned has ticked the system exactly once; one still waiting has not. */
  lemma ReturnedCallTickedOnce(step: real, r: Runner, c: nat)
    requires Reachable(step, r) && c < |r.calls|
    ensures r.calls[c].phase.Returned? ==>
              exists k | 0 <= k < |r.deliveries| :: r.deliveries[k].call == c
                && forall j :: 0 <= j < |r.deliveries| && r.deliveries[j].call == c ==> j == k
    ensures !HasTicked(r.calls[c].phase) ==> forall k | 0 <= k < |r.deliveries| :: r.deliveries[k].call != c
  {
    ReachableInv(step, r);
    if r.calls[c].phase.Returned? {
      assert Delivers(r.deliveries, c);
      var k :| 0 <= k < |r.deliveries| && r.deliveries[k].call == c;
      assert forall j :: 0 <= j < |r.deliveries| && r.deliveries[j].call == c ==> j == k;
    }
  }

  /** With nobody inside the lock the clock shows the ticks that the system has seen. */
  lemma ClockShowsDeliveries(step: real, r: Runner)
    requires Reachable(step, r) && !r.locked
    ensures r.time == AfterTicks(step, |r.deliveries|)
  {
    ReachableInv(step, r);
    if Ahead(r) {
      var c :| 0 <= c < |r.calls| && r.calls[c].phase.Ready?;
      assert Inside(r.calls[c].phase);
    }
  }

  /** No deadlock: while a call has not returned, some call can take its next step. */
  lemma SomeCallCanMove(step: real, r: Runner, c: nat) returns (e: Event)
    requires Reachable(step, r) && c < |r.calls| && !r.calls[c].phase.Returned?
    ensures e.Enter? || e.Advance? || e.Deliver? || e.Leave?
    ensures e.c < |r.calls| && Next(r, e).calls[e.c].phase != r.calls[e.c].phase
  {
    ReachableInv(step, r);
    if !r.locked {
      assert !Inside(r.calls[c].phase);
      e := Enter(c);
    } else {
      var d :| 0 <= d < |r.calls| && Inside(r.calls[d].phase);
      if r.calls[d].phase.Holding? {
        e := Advance(d);
      } else if r.calls[d].phase.Ready? {
        e := Deliver(d);
      } else {
        e := Leave(d);
      }
    }
  }

  // ---------- Pausing ----------

  /** The loop has called StepOnce and waits for the lock. */
  ghost predicate LoopWaits(r: Runner) {
    exists c :: 0 <= c < |r.calls| && r.calls[c].byLoop && r.calls[c].phase.Waiting?
  }

  /** In this step the loop's call enters the lock, which starts a tick. */
  predicate LoopStarts(r: Runner, e: Event) {
    e.Enter? && Is(r, e.c, Waiting) && !r.locked && r.calls[e.c].byLoop
  }

  /** How many ticks the loop starts in the course of a schedule. */
  ghost function Started(r: Runner, schedule: seq<Event>): nat {
    if schedule == [] then 0
    else
      var init := schedule[..|schedule| - 1];
      Started(r, init) + if LoopStarts(Run(r, init), schedule[|schedule| - 1]) then 1 else 0
  }

  ghost function Pending(r: Runner): nat { if LoopWaits(r) then 1 else 0 }

  lemma WaitingAgain(r: Runner, r': Runner)
    requires |r'.calls| >= |r.calls|
    requires forall c | 0 <= c < |r'.calls| && r'.calls[c].byLoop && r'.calls[c].phase.Waiting? ::
      c < |r.calls| && r.calls[c] == r'.calls[c]
    ensures LoopWaits(r') ==> LoopWaits(r)
  {
    if LoopWaits(r') {
      var c :| 0 <= c < |r'.calls| && r'.calls[c].byLoop && r'.calls[c].phase.Waiting?;
      assert r.calls[c].byLoop && r.calls[c].phase.Waiting?;
    }
  }

  lemma PausedStep(r: Runner, e: Event)
    requires Inv(r) && r.paused && e != Resume
    ensures Next(r, e).paused
    ensures Pending(Next(r, e)) + (if LoopStarts(r, e) then 1 else 0) <= Pending(r)
  {
    var r' := Next(r, e);
    WaitingAgain(r, r');
    if LoopStarts(r, e) {
      assert r.calls[e.c].byLoop && r.calls[e.c].phase.Waiting?;
      assert LoopWaits(r);
      assert !LoopWaits(r');
    }
  }

  lemma {:induction false} PausedRun(r: Runner, schedule: seq<Event>)
    requires Inv(r) && r.paused && Resume !in schedule
    ensures Run(r, schedule).paused && Inv(Run(r, schedule))
    ensures Started(r, schedule) + Pending(Run(r, schedule)) <= Pending(r)
  {
    if schedule != [] {
      var init, e := schedule[..|schedule| - 1], schedule[|schedule| - 1];
      assert e in schedule;
      PausedRun(r, init);
      PausedStep(Run(r, init), e);
      StepKeepsInv(Run(r, init), e);
    }
  }

  /** After Pause and until Resume the loop starts at most one further tick, and none unless it had already
      looked at the flag and was waiting for the lock. */
  lemma PauseStopsTheLoop(step: real, r: Runner, schedule: seq<Event>)
    requires Reachable(step, r) && Resume !in schedule
    ensures Started(Next(r, Pause), schedule) <= 1
    ensures !LoopWaits(r) ==> Started(Next(r, Pause), schedule) == 0
  {
    ReachableInv(step, r);
    StepKeepsInv(r, Pause);
    PausedRun(Next(r, Pause), schedule);
    if LoopWaits(Next(r, Pause)) { WaitingAgain(r, Next(r, Pause)); }
  }

  lemma OneMoreEvent(r: Runner, init: seq<Event>, e: Event, all: seq<Event>)
    requires all == init + [e]
    ensures Run(r, all) == Next(Run(r, init), e)
    ensures Started(r, all) == Started(r, init) + if LoopStarts(Run(r, init), e) then 1 else 0
  {
    assert all[..|all| - 1] == init;
  }

  /** Whoever is inside the lock can leave it, which starts no tick. */
  lemma LockIsLeft(r: Runner, d: nat) returns (schedule: seq<Event>)
    requires Inv(r) && d < |r.calls| && Inside(r.calls[d].phase)
    ensures Resume !in schedule && Pause !in schedule && Started(r, schedule) == 0
    ensures !Run(r, schedule).locked && Run(r, schedule).paused == r.paused
    ensures d < |Run(r, schedule).calls| && Run(r, schedule).calls[d] == r.calls[d].(phase := Returned)
    ensures |Run(r, schedule).calls| == |r.calls|
    ensures forall c | 0 <= c < |r.calls| && c != d :: Run(r, schedule).calls[c] == r.calls[c]
  {
    var first, second := [Advance(d)], [Advance(d), Deliver(d)];
    schedule := [Advance(d), Deliver(d), Leave(d)];
    OneMoreEvent(r, [], Advance(d), first);
    OneMoreEvent(r, first, Deliver(d), second);
    OneMoreEvent(r, second, Leave(d), schedule);
  }

  lemma WaitingLoopStarts(r: Runner) returns (schedule: seq<Event>)
    requires Inv(r) && LoopWaits(r)
    ensures Resume !in schedule && Pause !in schedule && Started(r, schedule) == 1
  {
    var c :| 0 <= c < |r.calls| && r.calls[c].byLoop && r.calls[c].phase.Waiting?;
    schedule := [];
    if r.locked {
      var d :| 0 <= d < |r.calls| && Inside(r.calls[d].phase);
      schedule := LockIsLeft(r, d);
    }
    OneMoreEvent(r, schedule, Enter(c), schedule + [Enter(c)]);
    schedule := schedule + [Enter(c)];
  }

  /** The one further tick can happen in every state in which the loop has looked at the flag and waits for
      the lock, and in no other. */
  lemma FurtherTickIffLoopWaits(step: real, r: Runner)
    requires Reachable(step, r)
    ensures (exists schedule :: Resume !in schedule && Started(Next(r, Pause), schedule) == 1) <==> LoopWaits(r)
  {
    ReachableInv(step, r);
    var p := Next(r, Pause);
    StepKeepsInv(r, Pause);
    forall schedule | Resume !in schedule && Started(p, schedule) == 1 ensures LoopWaits(r) {
      PauseStopsTheLoop(step, r, schedule);
    }
    if LoopWaits(r) {
      WaitingAgain(p, r);
      var schedule := WaitingLoopStarts(p);
    }
  }

  lemma RunOne(r: Runner, e: Event)
    ensures Run(r, [e]) == Next(r, e)
  {
    assert [e][..|[e]| - 1] == [];
  }

  lemma {:induction false} RunInTurn(r: Runner, a: seq<Event>, b: seq<Event>)
    ensures Run(r, a + b) == Run(Run(r, a), b)
  {
    if b == [] {
      assert a + b == a;
    } else {
      RunInTurn(r, a, b[..|b| - 1]);
      assert (a + b)[..|a + b| - 1] == a + b[..|b| - 1];
    }
  }

  lemma LastOfSum(a: seq<Event>, b: seq<Event>) returns (init: seq<Event>, e: Event)
    requires b != []
    ensures b == init + [e] && a + b == a + init + [e]
  {
    init, e := b[..|b| - 1], b[|b| - 1];
  }

  lemma {:induction false} StartedInTurn(r: Runner, a: seq<Event>, b: seq<Event>)
    ensures Started(r, a + b) == Started(r, a) + Started(Run(r, a), b)
    decreases |b|
  {
    if b == [] {
      assert a + b == a;
    } else {
      var init, e := LastOfSum(a, b);
      StartedInTurn(r, a, init);
      RunInTurn(r, a, init);
      OneMoreEvent(r, a + init, e, a + b);
      OneMoreEvent(Run(r, a), init, e, b);
    }
  }

  /** The loop takes a turn and its call gets through. */
  lemma IdleLoopStarts(r: Runner) returns (schedule: seq<Event>)
    requires Inv(r) && !r.paused && !LoopIsBusy(r)
    ensures Resume !in schedule && Pause !in schedule && Started(r, schedule) == 1
  {
    var r1 := Next(r, LoopTurn);
    StepKeepsInv(r, LoopTurn);
    assert r1.calls[|r.calls|] == Call(true, Waiting);
    schedule := WaitingLoopStarts(r1);
    RunOne(r, LoopTurn);
    StartedInTurn(r, [LoopTurn], schedule);
    assert [LoopTurn][..0] == [];
    schedule := [LoopTurn] + schedule;
  }

  /** Resume lets the loop tick again: from every state some schedule after it, without another Pause or Resume,
      starts a tick of the loop. */
  lemma ResumedLoopCanTick(step: real, r: Runner) returns (schedule: seq<Event>)
    requires Reachable(step, r)
    ensures Resume !in schedule && Pause !in schedule && Started(Next(r, Resume), schedule) == 1
  {
    var p := Next(r, Resume);
    ReachableInv(step, r);
    StepKeepsInv(r, Resume);
    if LoopWaits(p) {
      schedule := WaitingLoopStarts(p);
    } else if LoopIsBusy(p) {
      var d :| 0 <= d < |p.calls| && p.calls[d].byLoop && p.calls[d].phase != Returned;
      schedule := LockIsLeft(p, d);
      EveryScheduleKeepsInv(p, schedule);
      LoopIsDone(p, Run(p, schedule), d);
      var more := IdleLoopStarts(Run(p, schedule));
      StartedInTurn(p, schedule, more);
      schedule := schedule + more;
    } else {
      schedule := IdleLoopStarts(p);
    }
  }

  /** The loop has one call at a time. */
  lemma LoopIsDone(r: Runner, r': Runner, d: nat)
    requires Inv(r) && d < |r.calls| && r.calls[d].byLoop && r.calls[d].phase != Returned && |r'.calls| == |r.calls|
    requires r'.calls[d].phase == Returned
    requires forall c | 0 <= c < |r.calls| && c != d :: r'.calls[c] == r.calls[c]
    ensures !LoopIsBusy(r')
  {
  }

  /** A new StepOnce call can always get through: from every state some schedule after it lets it return, paused or
      not, and so with one tick delivered. */
  lemma StepOnceCanReturn(step: real, r: Runner) returns (schedule: seq<Event>)
    requires Reachable(step, r)
    ensures var r' := Run(Next(r, StepOnce), schedule);
      && |r'.calls| == |r.calls| + 1 && r'.calls[|r.calls|] == Call(false, Returned)
      && r'.paused == r.paused
  {
    var p, c := Next(r, StepOnce), |r.calls|;
    ReachableInv(step, r);
    StepKeepsInv(r, StepOnce);
    schedule := [];
    if p.locked {
      var d :| 0 <= d < |p.calls| && Inside(p.calls[d].phase);
      schedule := LockIsLeft(p, d);
    }
    EveryScheduleKeepsInv(p, schedule);
    var free := Run(p, schedule);
    var entered := Next(free, Enter(c));
    StepKeepsInv(free, Enter(c));
    var rest := LockIsLeft(entered, c);
    RunOne(free, Enter(c));
    RunInTurn(free, [Enter(c)], rest);
    RunInTurn(p, schedule, [Enter(c)] + rest);
    schedule := schedule + ([Enter(c)] + rest);
  }
}
