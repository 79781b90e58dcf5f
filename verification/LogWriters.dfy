/** The log's writers under concurrency: at most `threads` Adds at a time, under every interleaving.

    An Add is a process of its own: it takes a number, enqueues its entry, and then trims, reading Count and
    dequeuing by turns. The queue's own operations are atomic. */
module LogWriters {
  import opened LogEntries

  datatype Phase =
    | Starting                  // about to take a number
    | Numbered(number: int)     // about to enqueue
    | Counting                  // about to read Count
    | Trimming                  // has seen too many entries; about to dequeue one
    | Returned

  /** `enqueued` records the numbers of all entries ever enqueued, and steers nothing. */
  datatype Writers = Writers(maxEntries: nat, threads: nat, last: int, queue: seq<Entry>, calls: seq<Phase>,
                             enqueued: set<int>)

  datatype Step = Begin | Number(c: nat) | Enqueue(c: nat, entry: Entry) | Count(c: nat) | Dequeue(c: nat)

  function Start(maxEntries: nat, threads: nat): Writers {
    Writers(maxEntries, threads, 0, [], [], {})
  }

  // ---------- Steps ----------

  function Active(calls: seq<Phase>): set<nat> { set c: nat | c < |calls| && !calls[c].Returned? }

  function Trimmers(calls: seq<Phase>): set<nat> { set c: nat | c < |calls| && calls[c].Trimming? }

  /** Calls whose own entry is in and that have yet to finish trimming. */
  function Trailing(calls: seq<Phase>): set<nat> {
    set c: nat | c < |calls| && (calls[c].Trimming? || calls[c].Counting?)
  }

  function Move(r: Writers, c: nat, phase: Phase): Writers
    requires c < |r.calls|
  {
    r.(calls := r.calls[c := phase])
  }

  /** One atomic step; an event that does not fit the state does nothing. */
  function Next(r: Writers, e: Step): Writers {
    match e
    case Begin => if |Active(r.calls)| < r.threads then r.(calls := r.calls + [Starting]) else r
    case Number(c) =>
      if c < |r.calls| && r.calls[c].Starting? then Move(r, c, Numbered(r.last + 1)).(last := r.last + 1) else r
    case Enqueue(c, entry) =>
      if c < |r.calls| && r.calls[c] == Numbered(entry.number) then Move(Enqueued(r, entry), c, Counting) else r
    case Count(c) =>
      if c < |r.calls| && r.calls[c].Counting? then
        Move(r, c, if |r.queue| > r.maxEntries then Trimming else Returned)
      else r
    case Dequeue(c) =>
      if c < |r.calls| && r.calls[c].Trimming? then
        if r.queue == [] then Move(r, c, Returned) else Move(Dequeued(r), c, Counting)
      else r
  }

  function Enqueued(r: Writers, e: Entry): Writers {
    r.(queue := r.queue + [e], enqueued := r.enqueued + {e.number})
  }

  function Dequeued(r: Writers): Writers
    requires r.queue != []
  {
    r.(queue := r.queue[1..])
  }

  ghost function Run(r: Writers, schedule: seq<Step>): Writers {
    if schedule == [] then r else Next(Run(r, schedule[..|schedule| - 1]), schedule[|schedule| - 1])
  }

  ghost predicate Reachable(maxEntries: nat, threads: nat, r: Writers) {
    exists schedule :: r == Run(Start(maxEntries, threads), schedule)
  }

  // ---------- How many entries there are ----------

  /** The queue is over its bound by at most the calls still trimming; and if some calls are about to dequeue,
      it will be short by fewer than there are threads once they have. */
  ghost predicate SizeInv(r: Writers) {
    && |r.queue| <= r.maxEntries + |Trailing(r.calls)|
    && |Active(r.calls)| <= r.threads
    && (Trimmers(r.calls) != {} ==> |r.queue| - |Trimmers(r.calls)| >= r.maxEntries + 1 - r.threads)
  }

  lemma Smaller<T>(a: set<T>, b: set<T>)
    requires a <= b
    ensures |a| <= |b| && (a != b ==> |a| < |b|)
  {
    assert b == a + (b - a) && a !! (b - a);
    assert |b| == |a| + |b - a|;
    if a != b { assert b - a != {}; }
  }

  lemma WithAndWithout<T>(s: set<T>, x: T)
    ensures x in s ==> |s - {x}| == |s| - 1 && s + {x} == s
    ensures x !in s ==> s - {x} == s && |s + {x}| == |s| + 1
  {
    if x in s { assert s == (s - {x}) + {x}; }
  }

  lemma OneMoved(calls: seq<Phase>, c: nat, phase: Phase)
    requires c < |calls|
    ensures var calls' := calls[c := phase];
      && Active(calls') == (if phase.Returned? then Active(calls) - {c} else Active(calls) + {c})
      && Trimmers(calls') == (if phase.Trimming? then Trimmers(calls) + {c} else Trimmers(calls) - {c})
      && Trailing(calls')
         == (if phase.Trimming? || phase.Counting? then Trailing(calls) + {c} else Trailing(calls) - {c})
  {
  }

  lemma OneBegun(calls: seq<Phase>)
    ensures Active(calls + [Starting]) == Active(calls) + {|calls|}
    ensures Trimmers(calls + [Starting]) == Trimmers(calls) && Trailing(calls + [Starting]) == Trailing(calls)
  {
  }

  lemma TrimmersAreActive(calls: seq<Phase>, c: nat)
    requires c < |calls| && calls[c].Counting?
    ensures |Trimmers(calls)| < |Active(calls)|
  {
    assert c in Active(calls) && c !in Trimmers(calls);
    Smaller(Trimmers(calls), Active(calls));
  }

  lemma CountKeepsSize(r: Writers, c: nat)
    requires SizeInv(r) && c < |r.calls| && r.calls[c].Counting?
    ensures SizeInv(Next(r, Count(c)))
  {
    OneMoved(r.calls, c, if |r.queue| > r.maxEntries then Trimming else Returned);
    TrimmersAreActive(r.calls, c);
    assert c in Trailing(r.calls) && c in Active(r.calls) && c !in Trimmers(r.calls);
    WithAndWithout(Trimmers(r.calls), c);
    WithAndWithout(Active(r.calls), c);
    WithAndWithout(Trailing(r.calls), c);
  }

  lemma DequeueKeepsSize(r: Writers, c: nat)
    requires SizeInv(r) && c < |r.calls| && r.calls[c].Trimming?
    ensures SizeInv(Next(r, Dequeue(c)))
  {
    OneMoved(r.calls, c, if r.queue == [] then Returned else Counting);
    assert c in Trimmers(r.calls) && c in Trailing(r.calls) && c in Active(r.calls);
    WithAndWithout(Trimmers(r.calls), c);
    WithAndWithout(Active(r.calls), c);
    WithAndWithout(Trailing(r.calls), c);
  }

  lemma EnqueueKeepsSize(r: Writers, c: nat, e: Entry)
    requires SizeInv(r) && c < |r.calls| && r.calls[c] == Numbered(e.number)
    ensures SizeInv(Next(r, Enqueue(c, e)))
  {
    OneMoved(r.calls, c, Counting);
    assert c !in Trailing(r.calls) && c in Active(r.calls);
  }

  lemma NumberKeepsSize(r: Writers, c: nat)
    requires SizeInv(r) && c < |r.calls| && r.calls[c].Starting?
    ensures SizeInv(Next(r, Number(c)))
  {
    OneMoved(r.calls, c, Numbered(r.last + 1));
    assert c !in Trailing(r.calls) && c in Active(r.calls) && c !in Trimmers(r.calls);
  }

  lemma SizeKept(r: Writers, e: Step)
    requires SizeInv(r)
    ensures SizeInv(Next(r, e))
  {
    if Next(r, e) != r {
      match e
      case Begin => OneBegun(r.calls);
      case Number(c) => NumberKeepsSize(r, c);
      case Enqueue(c, entry) => EnqueueKeepsSize(r, c, entry);
      case Count(c) => CountKeepsSize(r, c);
      case Dequeue(c) => DequeueKeepsSize(r, c);
    }
  }

  lemma {:induction false} SizeAlways(r: Writers, schedule: seq<Step>)
    requires SizeInv(r)
    ensures SizeInv(Run(r, schedule))
    ensures Run(r, schedule).maxEntries == r.maxEntries && Run(r, schedule).threads == r.threads
  {
    if schedule != [] {
      SizeAlways(r, schedule[..|schedule| - 1]);
      SizeKept(Run(r, schedule[..|schedule| - 1]), schedule[|schedule| - 1]);
    }
  }

  lemma ReachableSize(maxEntries: nat, threads: nat, r: Writers)
    requires Reachable(maxEntries, threads, r)
    ensures SizeInv(r) && r.maxEntries == maxEntries && r.threads == threads
  {
    var schedule :| r == Run(Start(maxEntries, threads), schedule);
    assert Trimmers([]) == {} && Active([]) == {};
    SizeAlways(Start(maxEntries, threads), schedule);
  }

  /** Whenever no Add is in progress the log holds at most its maximum; while some are, it is over by at most
      one entry for each. */
  lemma LogIsBounded(maxEntries: nat, threads: nat, r: Writers)
    requires Reachable(maxEntries, threads, r)
    ensures |r.queue| <= maxEntries + |Active(r.calls)|
    ensures Active(r.calls) == {} ==> |r.queue| <= maxEntries
  {
    ReachableSize(maxEntries, threads, r);
    Smaller(Trailing(r.calls), Active(r.calls));
  }

  /** No dequeue leaves fewer than `maxEntries + 1 - threads` entries. */
  lemma TrimNeverGoesFar(maxEntries: nat, threads: nat, r: Writers, c: nat)
    requires Reachable(maxEntries, threads, r) && c < |r.calls| && r.calls[c].Trimming?
    ensures |Next(r, Dequeue(c)).queue| >= maxEntries + 1 - threads
  {
    ReachableSize(maxEntries, threads, r);
    assert c in Trimmers(r.calls);
  }

  // ---------- Numbers ----------

  function NumbersOf(s: seq<Entry>): set<int> { set e | e in s :: e.number }

  /** The numbers taken but not yet enqueued. */
  ghost predicate InFlight(r: Writers) {
    && (forall c | 0 <= c < |r.calls| && r.calls[c].Numbered? ::
          1 <= r.calls[c].number <= r.last && r.calls[c].number !in r.enqueued)
    && (forall c, d | 0 <= c < d < |r.calls| && r.calls[c].Numbered? && r.calls[d].Numbered? ::
          r.calls[c].number != r.calls[d].number)
  }

  ghost predicate NumberInv(r: Writers) {
    && r.last >= 0 && InFlight(r)
    && (forall n <- r.enqueued :: 1 <= n <= r.last)
    && DistinctNumbers(r.queue) && NumbersOf(r.queue) <= r.enqueued
  }

  lemma QueueNumbers(s: seq<Entry>, e: Entry)
    ensures NumbersOf(s + [e]) == NumbersOf(s) + {e.number}
    ensures DistinctNumbers(s) && e.number !in NumbersOf(s) ==> DistinctNumbers(s + [e])
  {
    forall x | x in NumbersOf(s) + {e.number} ensures x in NumbersOf(s + [e]) {
      if x == e.number {
        assert (s + [e])[|s|] == e;
      } else {
        var f :| f in s && f.number == x;
        assert f in s + [e];
      }
    }
    forall i | 0 <= i < |s| ensures s[i].number in NumbersOf(s) {
      assert s[i] in s;
    }
  }

  lemma RestNumbers(s: seq<Entry>)
    requires s != [] && DistinctNumbers(s)
    ensures NumbersOf(s[1..]) == NumbersOf(s) - {s[0].number} && s[0].number in NumbersOf(s) && DistinctNumbers(s[1..])
  {
    assert s == [s[0]] + s[1..];
    forall e | e in s[1..] ensures e.number != s[0].number {
      var k :| 0 <= k < |s[1..]| && s[1..][k] == e;
      assert s[k + 1] == e;
    }
  }

  lemma NumberKept(r: Writers, e: Step)
    requires NumberInv(r)
    ensures NumberInv(Next(r, e))
  {
    if Next(r, e) != r {
      match e
      case Enqueue(c, entry) => QueueNumbers(r.queue, entry);
      case Dequeue(c) => if r.queue != [] { RestNumbers(r.queue); }
      case Begin => assert Next(r, e).calls == r.calls + [Starting];
      case Number(c) => assert Next(r, e).calls == r.calls[c := Numbered(r.last + 1)];
      case Count(c) =>
    }
  }

  lemma {:induction false} NumbersAlways(r: Writers, schedule: seq<Step>)
    requires NumberInv(r)
    ensures NumberInv(Run(r, schedule))
  {
    if schedule != [] {
      NumbersAlways(r, schedule[..|schedule| - 1]);
      NumberKept(Run(r, schedule[..|schedule| - 1]), schedule[|schedule| - 1]);
    }
  }

  lemma ReachableNumbers(maxEntries: nat, threads: nat, r: Writers)
    requires Reachable(maxEntries, threads, r)
    ensures NumberInv(r)
  {
    var schedule :| r == Run(Start(maxEntries, threads), schedule);
    NumbersAlways(Start(maxEntries, threads), schedule);
  }

  // ---------- First in, first out ----------

  /** The entry that a step puts into the queue, if it does. */
  function Arrival(r: Writers, step: Step): seq<Entry> {
    if step.Enqueue? && step.c < |r.calls| && r.calls[step.c] == Numbered(step.entry.number) then [step.entry] else []
  }

  /** All that come in the course of a schedule, in order. */
  ghost function Arrivals(r: Writers, schedule: seq<Step>): seq<Entry> {
    if schedule == [] then []
    else
      var init := schedule[..|schedule| - 1];
      Arrivals(r, init) + Arrival(Run(r, init), schedule[|schedule| - 1])
  }

  /** Under every interleaving trimming takes the oldest: what is in the queue is what was there and came since,
      in that order, without the first `k`. */
  lemma {:induction false} OldestGoFirst(r: Writers, schedule: seq<Step>) returns (k: nat)
    ensures k <= |r.queue + Arrivals(r, schedule)|
    ensures Run(r, schedule).queue == (r.queue + Arrivals(r, schedule))[k..]
  {
    k := 0;
    if schedule != [] {
      var init, step := schedule[..|schedule| - 1], schedule[|schedule| - 1];
      k := OldestGoFirst(r, init);
      k := QueueMoves(Run(r, init), step, r.queue + Arrivals(r, init), k);
      assert r.queue + Arrivals(r, schedule) == r.queue + Arrivals(r, init) + Arrival(Run(r, init), step);
    }
  }

  lemma QueueMoves(r: Writers, step: Step, all: seq<Entry>, k: nat) returns (k': nat)
    requires k <= |all| && r.queue == all[k..]
    ensures k' <= |all + Arrival(r, step)| && Next(r, step).queue == (all + Arrival(r, step))[k'..]
  {
    k' := if step.Dequeue? && Next(r, step).queue != r.queue then k + 1 else k;
    assert (all + Arrival(r, step))[k..] == all[k..] + Arrival(r, step);
    assert Arrival(r, step) == [] ==> all + Arrival(r, step) == all;
  }

  /** So a log that started empty always holds the newest of all the entries that came. */
  lemma NewestAreKept(maxEntries: nat, threads: nat, schedule: seq<Step>)
    ensures var start := Start(maxEntries, threads);
      var queue, all := Run(start, schedule).queue, Arrivals(start, schedule);
      |queue| <= |all| && queue == all[|all| - |queue|..]
  {
    var start := Start(maxEntries, threads);
    var k := OldestGoFirst(start, schedule);
    assert start.queue + Arrivals(start, schedule) == Arrivals(start, schedule);
  }

  // ---------- The bound on trimming is sharp ----------

  lemma RunOne(r: Writers, schedule: seq<Step>, e: Step)
    ensures Run(r, schedule + [e]) == Next(Run(r, schedule), e)
  {
    assert (schedule + [e])[..|schedule|] == schedule;
  }

  lemma ReachOn(maxEntries: nat, threads: nat, r: Writers, e: Step) returns (r': Writers)
    requires Reachable(maxEntries, threads, r)
    ensures r' == Next(r, e) && Reachable(maxEntries, threads, r')
  {
    var schedule :| r == Run(Start(maxEntries, threads), schedule);
    RunOne(Start(maxEntries, threads), schedule, e);
    r' := Next(r, e);
  }

  function Blank(number: int): Entry { Entry(number, 0, "", "", "") }

  /** The first `base` calls have returned; of the `k` others the first `j` are in phase `p`, the rest in `q`. */
  ghost predicate Crowd(calls: seq<Phase>, base: nat, k: nat, j: nat, p: Phase, q: Phase) {
    && |calls| == base + k && j <= k
    && (forall i | 0 <= i < base :: calls[i] == Returned)
    && (forall i | base <= i < base + j :: calls[i] == p)
    && (forall i | base + j <= i < base + k :: calls[i] == q)
  }

  function Interval(base: nat, k: nat): (s: set<nat>)
    ensures |s| == k && forall i: nat :: i in s <==> base <= i < base + k
  {
    if k == 0 then {} else Interval(base, k - 1) + {base + k - 1}
  }

  lemma CrowdIsActive(calls: seq<Phase>, base: nat, k: nat)
    requires Crowd(calls, base, k, k, Counting, Counting)
    ensures |Active(calls)| == k
  {
    assert Active(calls) == Interval(base, k);
  }

  /** One more Add comes as far as its own entry. */
  lemma OneMoreJoins(maxEntries: nat, threads: nat, r: Writers, base: nat, k: nat) returns (r': Writers)
    requires Reachable(maxEntries, threads, r) && Crowd(r.calls, base, k, k, Counting, Counting) && k < threads
    ensures Reachable(maxEntries, threads, r') && Crowd(r'.calls, base, k + 1, k + 1, Counting, Counting)
    ensures |r'.queue| == |r.queue| + 1
  {
    ReachableSize(maxEntries, threads, r);
    CrowdIsActive(r.calls, base, k);
    var c := base + k;
    r' := ReachOn(maxEntries, threads, r, Begin);
    assert r'.calls == r.calls + [Starting];
    r' := ReachOn(maxEntries, threads, r', Number(c));
    assert r'.calls == r.calls + [Numbered(r.last + 1)];
    r' := ReachOn(maxEntries, threads, r', Enqueue(c, Blank(r.last + 1)));
    assert r'.calls == r.calls + [Counting];
  }

  /** An Add that finds room: the log can be filled entry by entry. */
  lemma {:induction false} Filled(maxEntries: nat, threads: nat, n: nat) returns (r: Writers)
    requires threads >= 1 && n <= maxEntries
    ensures Reachable(maxEntries, threads, r) && |r.queue| == n && Crowd(r.calls, n, 0, 0, Counting, Counting)
  {
    if n == 0 {
      r := Start(maxEntries, threads);
      assert r == Run(r, []);
    } else {
      r := Filled(maxEntries, threads, n - 1);
      r := OneMoreJoins(maxEntries, threads, r, n - 1, 0);
      ReachableSize(maxEntries, threads, r);
      r := ReachOn(maxEntries, threads, r, Count(n - 1));
    }
  }

  lemma {:induction false} ManyJoin(maxEntries: nat, threads: nat, n: nat, k: nat) returns (r: Writers)
    requires threads >= 1 && n <= maxEntries && k <= threads
    ensures Reachable(maxEntries, threads, r) && |r.queue| == n + k && Crowd(r.calls, n, k, k, Counting, Counting)
  {
    if k == 0 {
      r := Filled(maxEntries, threads, n);
    } else {
      r := ManyJoin(maxEntries, threads, n, k - 1);
      r := OneMoreJoins(maxEntries, threads, r, n, k - 1);
    }
  }

  /** All of them count before any dequeues. */
  lemma {:induction false} ManyCount(maxEntries: nat, threads: nat, n: nat, k: nat, j: nat) returns (r: Writers)
    requires threads >= 1 && n <= maxEntries && j <= k <= threads && n + k > maxEntries
    ensures Reachable(maxEntries, threads, r) && |r.queue| == n + k && Crowd(r.calls, n, k, j, Trimming, Counting)
  {
    if j == 0 {
      r := ManyJoin(maxEntries, threads, n, k);
    } else {
      r := ManyCount(maxEntries, threads, n, k, j - 1);
      ReachableSize(maxEntries, threads, r);
      r := ReachOn(maxEntries, threads, r, Count(n + j - 1));
    }
  }

  lemma {:induction false} ManyDequeue(maxEntries: nat, threads: nat, n: nat, k: nat, j: nat) returns (r: Writers)
    requires threads >= 1 && n <= maxEntries && j < k <= threads && n + k > maxEntries
    ensures Reachable(maxEntries, threads, r) && |r.queue| == n + k - j && Crowd(r.calls, n, k, j, Counting, Trimming)
  {
    if j == 0 {
      r := ManyCount(maxEntries, threads, n, k, k);
    } else {
      r := ManyDequeue(maxEntries, threads, n, k, j - 1);
      r := ReachOn(maxEntries, threads, r, Dequeue(n + j - 1));
    }
  }

  /** The bound of TrimNeverGoesFar is reached with any number of threads that the maximum has room for: all
      of them count before any dequeues. */
  lemma TrimBoundIsReached(maxEntries: nat, threads: nat) returns (r: Writers, c: nat)
    requires 1 <= threads <= maxEntries + 1
    ensures Reachable(maxEntries, threads, r) && c < |r.calls| && r.calls[c].Trimming?
    ensures |Next(r, Dequeue(c)).queue| == maxEntries + 1 - threads
  {
    var n := maxEntries + 1 - threads;
    r := ManyDequeue(maxEntries, threads, n, threads, threads - 1);
    c := n + threads - 1;
  }

  lemma TwoBegin(maxEntries: nat, threads: nat) returns (r: Writers)
    requires threads >= 2
    ensures Reachable(maxEntries, threads, r) && r == Start(maxEntries, threads).(calls := [Starting, Starting])
  {
    r := Start(maxEntries, threads);
    assert r == Run(r, []);
    assert Active([]) == {} && Active([Starting]) == {0};
    r := ReachOn(maxEntries, threads, r, Begin);
    assert r.calls == [Starting];
    r := ReachOn(maxEntries, threads, r, Begin);
    assert r.calls == [Starting, Starting];
  }

  /** Two Adds can enqueue in the other order than they took their numbers. */
  lemma SecondComesFirst(maxEntries: nat, threads: nat) returns (r: Writers)
    requires threads >= 2
    ensures Reachable(maxEntries, threads, r) && r.queue == [Blank(2)] && r.enqueued == {2}
    ensures r.calls == [Numbered(1), Counting]
  {
    r := TwoBegin(maxEntries, threads);
    r := ReachOn(maxEntries, threads, r, Number(0));
    assert r.calls == [Numbered(1), Starting];
    r := ReachOn(maxEntries, threads, r, Number(1));
    assert r.calls == [Numbered(1), Numbered(2)];
    r := ReachOn(maxEntries, threads, r, Enqueue(1, Blank(2)));
    assert r.calls == [Numbered(1), Counting];
  }
}
