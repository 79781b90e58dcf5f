/** Writers and the reader of the log together. The reader's Refresh copies its cursor, asks for a page, and
    then appends the page and moves the cursor; the page's button and its timer each start one, so several
    may be in flight. */
module LogReaders {
  import opened LogEntries
  import opened LogWriters

  /** `known` is all that had been enqueued when the snapshot for the page was taken. */
  datatype Refresh =
    | Asked(after: int)                       // has copied the cursor
    | Answered(page: Batch, known: set<int>)  // has its page; about to append it and move the cursor
    | Done

  /** `read` is what the reader has received. `lost` and `overtaken` record numbers and steer nothing: of
      entries dequeued above the reader's cursor and not received since, and of entries enqueued behind the
      cursor, or behind the one that a page in flight was to bring. */
  datatype Log = Log(store: Writers, readers: nat, after: int, read: seq<Entry>, refreshes: seq<Refresh>,
                     lost: set<int>, overtaken: set<int>)

  /** `Fail` is a request or an answer that does not get through. */
  datatype Event = Write(step: Step) | Ask | Answer(f: nat, take: int) | Apply(f: nat) | Fail(f: nat)

  function Start(maxEntries: nat, threads: nat, readers: nat): Log {
    Log(LogWriters.Start(maxEntries, threads), readers, 0, [], [], {}, {})
  }

  function UnderWay(refreshes: seq<Refresh>): set<nat> { set f: nat | f < |refreshes| && !refreshes[f].Done? }

  function BehindCursor(numbers: set<int>, after: int): set<int> { set n | n in numbers && n <= after }

  function AheadOfCursor(numbers: set<int>, after: int): set<int> { set n | n in numbers && n > after }

  function Written(r: Log, step: Step): Log {
    var next := LogWriters.Next(r.store, step);
    r.(store := next,
       lost := r.lost + AheadOfCursor(NumbersOf(r.store.queue) - NumbersOf(next.queue), r.after),
       overtaken := r.overtaken + BehindCursor(next.enqueued - r.store.enqueued, r.after))
  }

  /** An empty page changes neither list nor cursor. */
  function Applied(r: Log, page: Batch, known: set<int>): Log {
    if page.entries == [] then r
    else r.(after := page.nextAfter, read := r.read + page.entries, lost := r.lost - NumbersOf(page.entries),
            overtaken := r.overtaken + BehindCursor(r.store.enqueued - known, page.nextAfter))
  }

  function Turned(r: Log, f: nat, refresh: Refresh): Log
    requires f < |r.refreshes|
  {
    r.(refreshes := r.refreshes[f := refresh])
  }

  /** One atomic step; an event that does not fit the state does nothing. */
  function Next(r: Log, e: Event): (r': Log)
    ensures r'.readers == r.readers
  {
    match e
    case Write(step) => Written(r, step)
    case Ask => if |UnderWay(r.refreshes)| < r.readers then r.(refreshes := r.refreshes + [Asked(r.after)]) else r
    case Answer(f, take) =>
      if f < |r.refreshes| && r.refreshes[f].Asked? then
        Turned(r, f, Answered(Page(r.store.queue, r.refreshes[f].after, take), r.store.enqueued))
      else r
    case Apply(f) =>
      if f < |r.refreshes| && r.refreshes[f].Answered? then
        Turned(Applied(r, r.refreshes[f].page, r.refreshes[f].known), f, Done)
      else r
    case Fail(f) => if f < |r.refreshes| then Turned(r, f, Done) else r
  }

  ghost function Run(r: Log, schedule: seq<Event>): (r': Log)
    ensures r'.readers == r.readers
  {
    if schedule == [] then r else Next(Run(r, schedule[..|schedule| - 1]), schedule[|schedule| - 1])
  }

  ghost predicate Reachable(maxEntries: nat, threads: nat, readers: nat, r: Log) {
    exists schedule :: r == Run(Start(maxEntries, threads, readers), schedule)
  }

  lemma RunOne(r: Log, schedule: seq<Event>, e: Event)
    ensures Run(r, schedule + [e]) == Next(Run(r, schedule), e)
  {
    assert (schedule + [e])[..|schedule|] == schedule;
  }

  lemma ReachOn(maxEntries: nat, threads: nat, readers: nat, r: Log, e: Event) returns (r': Log)
    requires Reachable(maxEntries, threads, readers, r)
    ensures r' == Next(r, e) && Reachable(maxEntries, threads, readers, r')
  {
    var schedule :| r == Run(Start(maxEntries, threads, readers), schedule);
    RunOne(Start(maxEntries, threads, readers), schedule, e);
    r' := Next(r, e);
  }

  // ---------- The writers do not notice the reader ----------

  lemma {:induction false} StoreIsReachable(maxEntries: nat, threads: nat, readers: nat, schedule: seq<Event>)
    ensures LogWriters.Reachable(maxEntries, threads, Run(Start(maxEntries, threads, readers), schedule).store)
  {
    if schedule == [] {
      assert LogWriters.Start(maxEntries, threads) == LogWriters.Run(LogWriters.Start(maxEntries, threads), []);
    } else {
      var init, e := schedule[..|schedule| - 1], schedule[|schedule| - 1];
      StoreIsReachable(maxEntries, threads, readers, init);
      if e.Write? {
        var before := Run(Start(maxEntries, threads, readers), init);
        var store := LogWriters.ReachOn(maxEntries, threads, before.store, e.step);
      }
    }
  }

  /** Whatever the reader does, the store goes through states that the writers reach by themselves, so its
      bounds and numbering hold here too. */
  lemma StoreInvariants(maxEntries: nat, threads: nat, readers: nat, r: Log)
    requires Reachable(maxEntries, threads, readers, r)
    ensures LogWriters.Reachable(maxEntries, threads, r.store) && NumberInv(r.store) && SizeInv(r.store)
    ensures r.readers == readers && r.store.threads == threads && r.store.maxEntries == maxEntries
  {
    var schedule :| r == Run(Start(maxEntries, threads, readers), schedule);
    StoreIsReachable(maxEntries, threads, readers, schedule);
    ReachableSize(maxEntries, threads, r.store);
    ReachableNumbers(maxEntries, threads, r.store);
  }

  // ---------- One Refresh at a time ----------

  function Above(s: seq<Entry>, after: int): set<int> { AheadOfCursor(NumbersOf(s), after) }

  /** What the reader has yet to reach. */
  function Pending(r: Log): set<int> { Above(r.store.queue, r.after) }

  ghost predicate UpTo(numbers: set<int>, after: int) { forall n <- numbers :: n <= after }

  ghost predicate ReaderInv(r: Log) {
    && Ascending(r.read) && UpTo(NumbersOf(r.read), r.after) && UpTo(r.overtaken, r.after)
    && (r.after == 0 || r.after in r.store.enqueued)
  }

  /** Every entry ever enqueued is pending, read, lost or overtaken; what is read is neither of the last two. */
  ghost predicate Accounted(r: Log) {
    && r.store.enqueued == Pending(r) + NumbersOf(r.read) + r.lost + r.overtaken
    && r.lost !! NumbersOf(r.store.queue)
    && NumbersOf(r.read) !! r.lost && NumbersOf(r.read) !! r.overtaken
  }

  ghost predicate OnePending(refreshes: seq<Refresh>) {
    forall f, g | 0 <= f < g < |refreshes| :: refreshes[f].Done? || refreshes[g].Done?
  }

  /** A page for the present cursor: in order, and nothing between the cursors was known that is not on it or lost. */
  ghost predicate PageFits(r: Log, page: Batch, known: set<int>) {
    && known <= r.store.enqueued && NumbersOf(r.read) <= known && NumbersOf(page.entries) <= known
    && Ascending(page.entries) && (forall e <- page.entries :: r.after < e.number <= page.nextAfter)
    && (page.entries == [] ==> page.nextAfter == r.after)
    && (page.entries != [] ==> page.nextAfter in known && page.nextAfter > r.after)
    && (forall n <- known :: r.after < n <= page.nextAfter ==> n in NumbersOf(page.entries) || n in r.lost)
  }

  ghost predicate RefreshFits(r: Log, refresh: Refresh) {
    match refresh
    case Asked(after) => after == r.after
    case Answered(page, known) => PageFits(r, page, known)
    case Done => true
  }

  ghost predicate RefreshInv(r: Log) {
    OnePending(r.refreshes) && forall f | 0 <= f < |r.refreshes| :: RefreshFits(r, r.refreshes[f])
  }

  ghost predicate Inv(r: Log) { NumberInv(r.store) && ReaderInv(r) && Accounted(r) && RefreshInv(r) }

  // ---------- Each step keeps the invariant ----------

  /** What a step of the writers does to the queue's numbers and to those ever enqueued. */
  ghost predicate OneStep(a: Writers, b: Writers) {
    || (NumbersOf(b.queue) == NumbersOf(a.queue) && b.enqueued == a.enqueued)
    || (exists n ::
          n !in a.enqueued && NumbersOf(b.queue) == NumbersOf(a.queue) + {n} && b.enqueued == a.enqueued + {n})
    || (exists n ::
          n in NumbersOf(a.queue) && NumbersOf(b.queue) == NumbersOf(a.queue) - {n} && b.enqueued == a.enqueued)
  }

  lemma WritersStep(w: Writers, step: Step)
    requires NumberInv(w)
    ensures OneStep(w, LogWriters.Next(w, step))
  {
    var next := LogWriters.Next(w, step);
    if next != w {
      match step
      case Enqueue(c, e) =>
        QueueNumbers(w.queue, e);
        assert e.number !in w.enqueued && NumbersOf(next.queue) == NumbersOf(w.queue) + {e.number};
      case Dequeue(c) => if w.queue != [] { RestNumbers(w.queue); }
      case _ =>
    }
  }

  /** Sets only: the entry `n` is dequeued, and lost if the reader had yet to reach it. */
  lemma DequeuedIsAccountedFor(enqueued: set<int>, queue: set<int>, lost: set<int>, overtaken: set<int>,
                               read: set<int>, after: int, n: int)
    requires enqueued == AheadOfCursor(queue, after) + read + lost + overtaken && n in queue
    requires lost !! queue && read !! lost && UpTo(read, after)
    ensures var queue', lost' := queue - {n}, lost + AheadOfCursor({n}, after);
      enqueued == AheadOfCursor(queue', after) + read + lost' + overtaken && lost' !! queue' && read !! lost'
  {
  }

  /** The new entry `n` is enqueued, and overtaken if the reader's cursor is past it. */
  lemma EnqueuedIsAccountedFor(enqueued: set<int>, queue: set<int>, lost: set<int>, overtaken: set<int>,
                               read: set<int>, after: int, n: int)
    requires enqueued == AheadOfCursor(queue, after) + read + lost + overtaken && n !in enqueued
    requires lost !! queue && read !! overtaken
    ensures var queue', overtaken' := queue + {n}, overtaken + BehindCursor({n}, after);
      enqueued + {n} == AheadOfCursor(queue', after) + read + lost + overtaken' && lost !! queue' && read !! overtaken'
  {
  }

  lemma WriteKeepsAccount(r: Log, step: Step)
    requires NumberInv(r.store) && Accounted(r) && ReaderInv(r)
    ensures Accounted(Written(r, step)) && ReaderInv(Written(r, step))
    ensures r.store.enqueued <= Written(r, step).store.enqueued && r.lost <= Written(r, step).lost
  {
    var r' := Written(r, step);
    var queue, queue', read := NumbersOf(r.store.queue), NumbersOf(r'.store.queue), NumbersOf(r.read);
    WritersStep(r.store, step);
    if n :| n in queue && queue' == queue - {n} && r'.store.enqueued == r.store.enqueued {
      assert queue - queue' == {n} && r'.store.enqueued - r.store.enqueued == {};
      DequeuedIsAccountedFor(r.store.enqueued, queue, r.lost, r.overtaken, read, r.after, n);
    } else if n :| n !in r.store.enqueued && queue' == queue + {n} && r'.store.enqueued == r.store.enqueued + {n} {
      assert r'.store.enqueued - r.store.enqueued == {n} && queue - queue' == {};
      EnqueuedIsAccountedFor(r.store.enqueued, queue, r.lost, r.overtaken, read, r.after, n);
    }
  }

  lemma WriteKeepsInv(r: Log, step: Step)
    requires Inv(r)
    ensures Inv(Written(r, step))
  {
    WriteKeepsAccount(r, step);
    NumberKept(r.store, step);
    var r' := Written(r, step);
    forall f | 0 <= f < |r'.refreshes| ensures RefreshFits(r', r'.refreshes[f]) {
      assert RefreshFits(r, r.refreshes[f]);
    }
  }

  lemma AskKeepsInv(r: Log)
    requires Inv(r) && r.readers <= 1
    ensures Inv(Next(r, Ask))
  {
    var r' := Next(r, Ask);
    if |UnderWay(r.refreshes)| < r.readers {
      assert UnderWay(r.refreshes) == {};
      forall f | 0 <= f < |r.refreshes| ensures r.refreshes[f].Done? { assert f !in UnderWay(r.refreshes); }
      assert forall f | 0 <= f < |r.refreshes| :: r'.refreshes[f] == r.refreshes[f];
    }
  }

  /** The entries above a cursor are those on the page and those above the page. */
  lemma PageTakes(queue: seq<Entry>, after: int, take: int)
    requires DistinctNumbers(queue)
    ensures var page := Page(queue, after, take);
      && IsPage(queue, after, take, page)
      && Above(queue, after) == NumbersOf(page.entries) + Above(queue, page.nextAfter)
      && NumbersOf(page.entries) <= NumbersOf(queue)
      && (page.entries != [] ==> page.nextAfter in NumbersOf(queue))
  {
    PageIsPage(queue, after, take);
    var page := Page(queue, after, take);
    forall x | x in Above(queue, after) ensures x in NumbersOf(page.entries) + Above(queue, page.nextAfter) {
      var e :| e in queue && e.number == x;
      if e.number <= page.nextAfter { assert e in page.entries; }
    }
    if page.entries != [] {
      assert page.entries[|page.entries| - 1] in page.entries;
    }
  }

  lemma SnapshotFits(r: Log, take: int)
    requires NumberInv(r.store) && ReaderInv(r) && Accounted(r)
    ensures PageFits(r, Page(r.store.queue, r.after, take), r.store.enqueued)
  {
    PageTakes(r.store.queue, r.after, take);
  }

  lemma TurnKeepsInv(r: Log, f: nat, refresh: Refresh)
    requires Inv(r) && f < |r.refreshes| && !r.refreshes[f].Done? && RefreshFits(r, refresh)
    ensures Inv(Turned(r, f, refresh))
  {
    var r' := Turned(r, f, refresh);
    forall g | 0 <= g < |r'.refreshes| ensures RefreshFits(r', r'.refreshes[g]) {
      if g != f { assert RefreshFits(r, r.refreshes[g]); }
    }
  }

  lemma AnswerKeepsInv(r: Log, f: nat, take: int)
    requires Inv(r) && f < |r.refreshes| && r.refreshes[f].Asked?
    ensures Inv(Next(r, Answer(f, take)))
  {
    assert RefreshFits(r, r.refreshes[f]);
    SnapshotFits(r, take);
    TurnKeepsInv(r, f, Answered(Page(r.store.queue, r.after, take), r.store.enqueued));
  }

  lemma ReadOn(read: seq<Entry>, page: seq<Entry>, after: int)
    requires Ascending(read) && Ascending(page) && UpTo(NumbersOf(read), after) && forall e <- page :: e.number > after
    ensures Ascending(read + page) && NumbersOf(read + page) == NumbersOf(read) + NumbersOf(page)
  {
    forall i, j | 0 <= i < j < |read + page| ensures (read + page)[i].number < (read + page)[j].number {
      if i < |read| <= j {
        assert read[i] in read && page[j - |read|] in page;
        assert read[i].number in NumbersOf(read);
      }
    }
    forall x | x in NumbersOf(read) + NumbersOf(page) ensures x in NumbersOf(read + page) {
      if x in NumbersOf(read) {
        var e :| e in read && e.number == x;
        assert e in read + page;
      } else {
        var e :| e in page && e.number == x;
        assert e in read + page;
      }
    }
  }

  /** Sets only: what a page moves from pending, or from lost, to read. */
  lemma PageIsAccountedFor(enqueued: set<int>, queue: set<int>, lost: set<int>, overtaken: set<int>, read: set<int>,
                           page: set<int>, known: set<int>, after: int, next: int)
    requires enqueued == AheadOfCursor(queue, after) + read + lost + overtaken && after <= next
    requires lost !! queue && read !! lost && read !! overtaken && UpTo(overtaken, after)
    requires known <= enqueued && read <= known && page <= known && forall n <- page :: after < n <= next
    requires forall n <- known :: after < n <= next ==> n in page || n in lost
    ensures var lost', overtaken' := lost - page, overtaken + BehindCursor(enqueued - known, next);
      && enqueued == AheadOfCursor(queue, next) + (read + page) + lost' + overtaken'
      && lost' !! queue && read + page !! lost' && read + page !! overtaken' && UpTo(overtaken', next)
  {
    forall n | n in enqueued
      ensures n in AheadOfCursor(queue, next) + (read + page) + (lost - page) + overtaken
                   + BehindCursor(enqueued - known, next)
    {
    }
    forall n | n in page ensures n !in overtaken && n !in BehindCursor(enqueued - known, next) {
      assert n in known;
    }
  }

  lemma AppliedIsAccounted(r: Log, page: Batch, known: set<int>)
    requires ReaderInv(r) && Accounted(r) && PageFits(r, page, known)
    ensures ReaderInv(Applied(r, page, known)) && Accounted(Applied(r, page, known))
  {
    if page.entries != [] {
      ReadOn(r.read, page.entries, r.after);
      PageIsAccountedFor(r.store.enqueued, NumbersOf(r.store.queue), r.lost, r.overtaken, NumbersOf(r.read),
                         NumbersOf(page.entries), known, r.after, page.nextAfter);
    }
  }

  lemma ApplyKeepsInv(r: Log, f: nat)
    requires Inv(r) && f < |r.refreshes| && r.refreshes[f].Answered?
    ensures Inv(Next(r, Apply(f)))
  {
    var page, known, r' := r.refreshes[f].page, r.refreshes[f].known, Next(r, Apply(f));
    assert RefreshFits(r, r.refreshes[f]);
    AppliedIsAccounted(r, page, known);
    forall g | 0 <= g < |r'.refreshes| ensures r'.refreshes[g].Done? {
      if g < f { assert r.refreshes[g].Done?; }
    }
  }

  lemma StepKeepsInv(r: Log, e: Event)
    requires Inv(r) && r.readers <= 1
    ensures Inv(Next(r, e))
  {
    if Next(r, e) != r {
      match e
      case Write(step) => WriteKeepsInv(r, step);
      case Ask => AskKeepsInv(r);
      case Answer(f, take) => AnswerKeepsInv(r, f, take);
      case Apply(f) => ApplyKeepsInv(r, f);
      case Fail(f) => if !r.refreshes[f].Done? { TurnKeepsInv(r, f, Done); }
    }
  }

  /** With one Refresh at a time, under every interleaving with the writers. */
  lemma {:induction false} EveryScheduleKeepsInv(r: Log, schedule: seq<Event>)
    requires Inv(r) && r.readers <= 1
    ensures Inv(Run(r, schedule))
  {
    if schedule != [] {
      EveryScheduleKeepsInv(r, schedule[..|schedule| - 1]);
      StepKeepsInv(Run(r, schedule[..|schedule| - 1]), schedule[|schedule| - 1]);
    }
  }

  lemma ReachableInv(maxEntries: nat, threads: nat, readers: nat, r: Log)
    requires Reachable(maxEntries, threads, readers, r) && readers <= 1
    ensures Inv(r)
  {
    var schedule :| r == Run(Start(maxEntries, threads, readers), schedule);
    EveryScheduleKeepsInv(Start(maxEntries, threads, readers), schedule);
  }

  // ---------- Reliability ----------

  /** Of what the cursor has passed, the reader has received exactly the entries that were neither trimmed
      before it reached them nor enqueued behind it. */
  ghost predicate ReadExactly(r: Log) {
    forall n <- r.store.enqueued :: n <= r.after ==> (n in NumbersOf(r.read) <==> n !in r.lost && n !in r.overtaken)
  }

  lemma OneRefreshIsReliable(maxEntries: nat, threads: nat, readers: nat, r: Log)
    requires Reachable(maxEntries, threads, readers, r) && readers <= 1
    ensures Ascending(r.read) && ReadExactly(r)
  {
    ReachableInv(maxEntries, threads, readers, r);
  }

  /** Nothing can be written, so nothing is ever there to read. */
  ghost predicate Empty(r: Log) {
    && r.store.threads == 0 && r.store.calls == [] && r.store.queue == [] && r.store.enqueued == {} && r.read == []
    && forall f | 0 <= f < |r.refreshes| :: r.refreshes[f].Answered? ==> r.refreshes[f].page.entries == []
  }

  lemma EmptyPage(after: int, take: int)
    ensures Page([], after, take).entries == []
  {
  }

  lemma EmptyKept(r: Log, e: Event)
    requires Empty(r)
    ensures Empty(Next(r, e))
  {
    match e
    case Answer(f, take) =>
      if f < |r.refreshes| && r.refreshes[f].Asked? {
        EmptyPage(r.refreshes[f].after, take);
      }
    case _ =>
  }

  lemma {:induction false} AlwaysEmpty(maxEntries: nat, readers: nat, schedule: seq<Event>)
    ensures Empty(Run(Start(maxEntries, 0, readers), schedule))
  {
    if schedule != [] {
      AlwaysEmpty(maxEntries, readers, schedule[..|schedule| - 1]);
      EmptyKept(Run(Start(maxEntries, 0, readers), schedule[..|schedule| - 1]), schedule[|schedule| - 1]);
    }
  }

  lemma OneEntryPage(e: Entry)
    requires e.number > 0
    ensures Page([e], 0, 200) == Batch(e.number, [e])
  {
    assert [e][..0] == [];
    assert Newer([e], 0) == [e];
    assert ByNumber([e]) == [e];
  }

  lemma {:induction false} WritesUnread(maxEntries: nat, threads: nat, readers: nat, schedule: seq<Step>)
    returns (r: Log)
    ensures Reachable(maxEntries, threads, readers, r)
    ensures r.store == LogWriters.Run(LogWriters.Start(maxEntries, threads), schedule)
    ensures r.after == 0 && r.read == [] && r.refreshes == [] && r.readers == readers
  {
    if schedule == [] {
      r := Start(maxEntries, threads, readers);
      assert r == Run(r, []);
    } else {
      r := WritesUnread(maxEntries, threads, readers, schedule[..|schedule| - 1]);
      r := ReachOn(maxEntries, threads, readers, r, Write(schedule[|schedule| - 1]));
    }
  }

  /** Whatever the writers can do, they can do before the reader begins. */
  lemma UnreadSoFar(maxEntries: nat, threads: nat, readers: nat, w: Writers) returns (r: Log)
    requires LogWriters.Reachable(maxEntries, threads, w)
    ensures Reachable(maxEntries, threads, readers, r) && r.store == w
    ensures r.after == 0 && r.read == [] && r.refreshes == [] && r.readers == readers
  {
    var schedule :| w == LogWriters.Run(LogWriters.Start(maxEntries, threads), schedule);
    r := WritesUnread(maxEntries, threads, readers, schedule);
  }

  lemma AskReaches(maxEntries: nat, threads: nat, readers: nat, r: Log) returns (r': Log)
    requires Reachable(maxEntries, threads, readers, r) && |UnderWay(r.refreshes)| < r.readers
    ensures Reachable(maxEntries, threads, readers, r') && r' == r.(refreshes := r.refreshes + [Asked(r.after)])
  {
    r' := ReachOn(maxEntries, threads, readers, r, Ask);
  }

  lemma AnswerReaches(maxEntries: nat, threads: nat, readers: nat, r: Log, f: nat, take: int) returns (r': Log)
    requires Reachable(maxEntries, threads, readers, r) && f < |r.refreshes| && r.refreshes[f].Asked?
    ensures Reachable(maxEntries, threads, readers, r')
    ensures r' == Turned(r, f, Answered(Page(r.store.queue, r.refreshes[f].after, take), r.store.enqueued))
  {
    r' := ReachOn(maxEntries, threads, readers, r, Answer(f, take));
  }

  lemma ApplyReaches(maxEntries: nat, threads: nat, readers: nat, r: Log, f: nat, page: Batch, known: set<int>)
    returns (r': Log)
    requires Reachable(maxEntries, threads, readers, r) && f < |r.refreshes| && r.refreshes[f] == Answered(page, known)
    ensures Reachable(maxEntries, threads, readers, r') && r' == Turned(Applied(r, page, known), f, Done)
  {
    r' := ReachOn(maxEntries, threads, readers, r, Apply(f));
  }

  /** Two Refreshes in flight copy one cursor, and the same page is appended twice, even if the second is only
      answered when the first is done. */
  lemma OverlappingRefreshesRepeat(maxEntries: nat, threads: nat, readers: nat) returns (r: Log)
    requires threads >= 1 && readers >= 2
    ensures Reachable(maxEntries, threads, readers, r) && |r.read| == 2 && r.read[0] == r.read[1]
  {
    var w := ManyJoin(maxEntries, threads, 0, 1);
    FirstPage(maxEntries, threads, w);
    r := UnreadSoFar(maxEntries, threads, readers, w);
    r := BothAsked(maxEntries, threads, readers, r);
    var page := Page(w.queue, 0, 200);
    r := ReadsPage(maxEntries, threads, readers, r, 0, page);
    r := ReadsPage(maxEntries, threads, readers, r, 1, page);
    assert r.read == page.entries + page.entries;
  }

  /** A Refresh that has copied the cursor 0 comes to its end. */
  lemma ReadsPage(maxEntries: nat, threads: nat, readers: nat, r: Log, f: nat, page: Batch) returns (r': Log)
    requires Reachable(maxEntries, threads, readers, r) && f < |r.refreshes| && r.refreshes[f] == Asked(0)
    requires page == Page(r.store.queue, 0, 200) && page.entries != []
    ensures Reachable(maxEntries, threads, readers, r') && r'.store == r.store && r'.read == r.read + page.entries
    ensures r'.refreshes == r.refreshes[f := Done]
  {
    r' := AnswerReaches(maxEntries, threads, readers, r, f, 200);
    r' := ApplyReaches(maxEntries, threads, readers, r', f, page, r.store.enqueued);
  }

  lemma BothAsked(maxEntries: nat, threads: nat, readers: nat, r: Log) returns (r': Log)
    requires Reachable(maxEntries, threads, readers, r) && r.readers >= 2 && r.refreshes == []
    ensures Reachable(maxEntries, threads, readers, r') && r' == r.(refreshes := [Asked(r.after), Asked(r.after)])
  {
    var a := Asked(r.after);
    assert UnderWay([]) == {} && UnderWay([a]) == {0};
    r' := AskReaches(maxEntries, threads, readers, r);
    assert r'.refreshes == [a];
    r' := AskReaches(maxEntries, threads, readers, r');
    assert r'.refreshes == [a, a];
  }

  lemma FirstPage(maxEntries: nat, threads: nat, w: Writers)
    requires LogWriters.Reachable(maxEntries, threads, w) && |w.queue| == 1
    ensures |Page(w.queue, 0, 200).entries| == 1
  {
    ReachableNumbers(maxEntries, threads, w);
    var e := w.queue[0];
    assert w.queue == [e] && e in w.queue;
    assert e.number in NumbersOf(w.queue);
    OneEntryPage(e);
  }

  /** The reader receives strictly increasing numbers, nothing twice, under every interleaving exactly if at
      most one Refresh is in flight at a time (or nothing is ever written). */
  lemma NothingIsReadTwiceIff(maxEntries: nat, threads: nat, readers: nat)
    ensures (forall r | Reachable(maxEntries, threads, readers, r) :: Ascending(r.read))
       <==> readers <= 1 || threads == 0
  {
    if readers <= 1 {
      forall r | Reachable(maxEntries, threads, readers, r) ensures Ascending(r.read) {
        OneRefreshIsReliable(maxEntries, threads, readers, r);
      }
    } else if threads == 0 {
      forall r | Reachable(maxEntries, threads, readers, r) ensures Ascending(r.read) {
        var schedule :| r == Run(Start(maxEntries, threads, readers), schedule);
        AlwaysEmpty(maxEntries, readers, schedule);
      }
    } else {
      var r := OverlappingRefreshesRepeat(maxEntries, threads, readers);
      assert !Ascending(r.read);
    }
  }

  // ---------- One Add at a time ----------

  /** What is taken but not enqueued is newer than all that is enqueued, what came since a snapshot is newer
      than its page, and nothing has been overtaken. */
  ghost predicate Fresh(r: Log) {
    && (forall c | 0 <= c < |r.store.calls| && r.store.calls[c].Numbered? ::
          UpTo(r.store.enqueued, r.store.calls[c].number - 1))
    && (forall f | 0 <= f < |r.refreshes| && r.refreshes[f].Answered? ::
          NewerThan(r.store.enqueued - r.refreshes[f].known, r.refreshes[f].page.nextAfter))
    && r.overtaken == {}
  }

  ghost predicate NewerThan(numbers: set<int>, after: int) { forall n <- numbers :: n > after }

  lemma OnlyOneActive(calls: seq<Phase>, c: nat, d: nat)
    requires |Active(calls)| <= 1 && c < |calls| && d < |calls| && !calls[c].Returned? && !calls[d].Returned?
    ensures c == d
  {
    assert c in Active(calls) && d in Active(calls);
    WithAndWithout(Active(calls), c);
    assert d !in Active(calls) - {c};
  }

  lemma OneMoreNewer(enqueued: set<int>, known: set<int>, after: int, n: int)
    requires NewerThan(enqueued - known, after) && n > after
    ensures NewerThan((enqueued + {n}) - known, after)
  {
    forall m | m in (enqueued + {n}) - known ensures m > after {
      assert m != n ==> m in enqueued - known;
    }
  }

  lemma EnqueueKeepsFresh(r: Log, c: nat, e: Entry)
    requires Inv(r) && Fresh(r) && |Active(r.store.calls)| <= 1
    requires c < |r.store.calls| && r.store.calls[c] == Numbered(e.number)
    ensures Fresh(Next(r, Write(Enqueue(c, e))))
  {
    var r' := Next(r, Write(Enqueue(c, e)));
    assert r'.store.enqueued - r.store.enqueued == {e.number} && r.after < e.number;
    assert r'.overtaken == {};
    forall d | 0 <= d < |r.store.calls| && d != c ensures !r.store.calls[d].Numbered? {
      if r.store.calls[d].Numbered? { OnlyOneActive(r.store.calls, c, d); }
    }
    forall f | 0 <= f < |r.refreshes| && r.refreshes[f].Answered?
      ensures NewerThan(r'.store.enqueued - r.refreshes[f].known, r.refreshes[f].page.nextAfter)
    {
      assert RefreshFits(r, r.refreshes[f]);
      OneMoreNewer(r.store.enqueued, r.refreshes[f].known, r.refreshes[f].page.nextAfter, e.number);
    }
  }

  lemma WriteKeepsFresh(r: Log, step: Step)
    requires NumberInv(r.store) && Fresh(r) && !step.Enqueue?
    ensures Fresh(Next(r, Write(step)))
  {
    match step
    case Begin =>
    case Number(c) =>
    case Count(c) =>
    case Dequeue(c) =>
  }

  lemma ReadKeepsFresh(r: Log, e: Event)
    requires Fresh(r) && !e.Write?
    ensures Fresh(Next(r, e))
  {
    match e
    case Ask =>
    case Answer(f, take) =>
    case Apply(f) =>
    case Fail(f) =>
  }

  lemma {:induction false} AlwaysFresh(maxEntries: nat, threads: nat, readers: nat, schedule: seq<Event>)
    requires threads <= 1 && readers <= 1
    ensures Fresh(Run(Start(maxEntries, threads, readers), schedule))
  {
    if schedule != [] {
      var init, e := schedule[..|schedule| - 1], schedule[|schedule| - 1];
      AlwaysFresh(maxEntries, threads, readers, init);
      var r := Run(Start(maxEntries, threads, readers), init);
      assert Reachable(maxEntries, threads, readers, r);
      ReachableInv(maxEntries, threads, readers, r);
      StoreInvariants(maxEntries, threads, readers, r);
      if !e.Write? {
        ReadKeepsFresh(r, e);
      } else if !e.step.Enqueue? {
        WriteKeepsFresh(r, e.step);
      } else if LogWriters.Next(r.store, e.step) != r.store {
        EnqueueKeepsFresh(r, e.step.c, e.step.entry);
      }
    }
  }

  /** Of what the cursor has passed, the reader has missed only what was trimmed before it got there. */
  ghost predicate MissesOnlyTrimmed(r: Log) {
    forall n <- r.store.enqueued :: n <= r.after ==> (n in NumbersOf(r.read) <==> n !in r.lost)
  }

  lemma OneAddAtATime(maxEntries: nat, threads: nat, readers: nat, r: Log)
    requires Reachable(maxEntries, threads, readers, r) && threads <= 1 && readers <= 1
    ensures r.overtaken == {} && MissesOnlyTrimmed(r)
  {
    var schedule :| r == Run(Start(maxEntries, threads, readers), schedule);
    AlwaysFresh(maxEntries, threads, readers, schedule);
    OneRefreshIsReliable(maxEntries, threads, readers, r);
  }

  /** Two Adds that overlap can enqueue in the other order than they took their numbers; a page in between
      then passes the smaller one by: it is in the log, behind the cursor, and was never received. */
  lemma OverlappingAddsCanHide(maxEntries: nat, threads: nat) returns (r: Log)
    requires threads >= 2
    ensures Reachable(maxEntries, threads, 1, r) && r.after == 2
    ensures 1 in NumbersOf(r.store.queue) && 1 in r.store.enqueued && 1 !in NumbersOf(r.read) && 1 !in r.lost
  {
    var w := SecondComesFirst(maxEntries, threads);
    var page := Batch(2, [Blank(2)]);
    r := UnreadSoFar(maxEntries, threads, 1, w);
    OneEntryPage(Blank(2));
    assert UnderWay([]) == {};
    r := AskReaches(maxEntries, threads, 1, r);
    r := AnswerReaches(maxEntries, threads, 1, r, 0, 200);
    r := ApplyReaches(maxEntries, threads, 1, r, 0, page, w.enqueued);
    assert r.store == w && r.after == 2 && r.read == [Blank(2)];
    r := LateComer(maxEntries, threads, r);
  }

  lemma LateComer(maxEntries: nat, threads: nat, r: Log) returns (r': Log)
    requires Reachable(maxEntries, threads, 1, r) && r.store.calls == [Numbered(1), Counting]
    requires r.store.queue == [Blank(2)] && r.read == [Blank(2)]
    ensures Reachable(maxEntries, threads, 1, r') && r'.after == r.after
    ensures 1 in NumbersOf(r'.store.queue) && 1 in r'.store.enqueued && 1 !in NumbersOf(r'.read) && 1 !in r'.lost
  {
    r' := ReachOn(maxEntries, threads, 1, r, Write(Enqueue(0, Blank(1))));
    assert r'.store.queue == [Blank(2), Blank(1)] && r'.store.queue[1].number == 1;
    assert r'.store.queue[1] in r'.store.queue;
    ReachableInv(maxEntries, threads, 1, r');
  }

  /** A reader with one Refresh at a time misses only what was trimmed exactly if Adds do not overlap. */
  lemma OnlyTrimmedIsMissedIff(maxEntries: nat, threads: nat)
    ensures (forall r | Reachable(maxEntries, threads, 1, r) :: MissesOnlyTrimmed(r)) <==> threads <= 1
  {
    if threads <= 1 {
      forall r | Reachable(maxEntries, threads, 1, r) ensures MissesOnlyTrimmed(r) {
        OneAddAtATime(maxEntries, threads, 1, r);
      }
    } else {
      var r := OverlappingAddsCanHide(maxEntries, threads);
      assert !MissesOnlyTrimmed(r);
    }
  }

  // ---------- The reader makes progress beside running writers ----------

  /** A Refresh comes to its end: its answer is here, and its page is appended and its cursor taken over. */
  predicate Lands(r: Log, e: Event) { e.Apply? && e.f < |r.refreshes| && r.refreshes[e.f].Answered? }

  /** How many do in the course of a schedule. */
  ghost function Landed(r: Log, schedule: seq<Event>): nat {
    if schedule == [] then 0
    else
      var init := schedule[..|schedule| - 1];
      Landed(r, init) + if Lands(Run(r, init), schedule[|schedule| - 1]) then 1 else 0
  }

  /** A page on its way that brings nothing. */
  ghost predicate EmptyComing(r: Log) {
    exists f :: 0 <= f < |r.refreshes| && r.refreshes[f].Answered? && r.refreshes[f].page.entries == []
  }

  /** How many Refreshes must land before the cursor is sure to have reached `n`. */
  ghost function Lag(r: Log, n: int): nat {
    if n <= r.after then 0 else n - r.after + if EmptyComing(r) then 1 else 0
  }

  lemma WriteKeepsPending(r: Log, step: Step, n: int)
    requires NumberInv(r.store) && n in r.store.enqueued && n in Pending(Written(r, step))
    ensures n in Pending(r) && Lag(Written(r, step), n) == Lag(r, n)
  {
    WritersStep(r.store, step);
  }

  lemma AskKeepsLag(r: Log, n: int)
    ensures Lag(Next(r, Ask), n) == Lag(r, n)
  {
    var r' := Next(r, Ask);
    assert forall f | 0 <= f < |r.refreshes| :: r'.refreshes[f] == r.refreshes[f];
  }

  /** A page answered while `n` waits is not empty. */
  lemma AnswerKeepsLag(r: Log, f: nat, take: int, n: int)
    requires Inv(r) && n in Pending(r) && f < |r.refreshes| && r.refreshes[f].Asked?
    ensures Lag(Next(r, Answer(f, take)), n) <= Lag(r, n)
  {
    var r' := Next(r, Answer(f, take));
    assert RefreshFits(r, r.refreshes[f]);
    PageMoves(r.store.queue, r.after, take);
    assert forall g | 0 <= g < |r.refreshes| && g != f :: r'.refreshes[g] == r.refreshes[g];
  }

  lemma LandingCuts(r: Log, f: nat, n: int)
    requires Inv(r) && f < |r.refreshes| && r.refreshes[f].Answered? && n in Pending(Next(r, Apply(f)))
    ensures n in Pending(r) && Lag(Next(r, Apply(f)), n) < Lag(r, n)
  {
    var r' := Next(r, Apply(f));
    assert RefreshFits(r, r.refreshes[f]);
    forall g | 0 <= g < |r'.refreshes| ensures r'.refreshes[g].Done? {
      if g < f { assert r.refreshes[g].Done?; }
    }
  }

  /** As long as `n` waits, no event adds to what must land, and each landing takes from it. */
  lemma StepCutsLag(r: Log, e: Event, n: int)
    requires Inv(r) && n in r.store.enqueued && n in Pending(Next(r, e))
    ensures n in Pending(r) && Lag(Next(r, e), n) + (if Lands(r, e) then 1 else 0) <= Lag(r, n)
  {
    if Lands(r, e) {
      LandingCuts(r, e.f, n);
    } else if Next(r, e) != r {
      match e
      case Write(step) => WriteKeepsPending(r, step, n);
      case Ask => AskKeepsLag(r, n);
      case Answer(f, take) => AnswerKeepsLag(r, f, take, n);
      case Fail(f) => assert forall g | 0 <= g < |r.refreshes| && g != f :: Next(r, e).refreshes[g] == r.refreshes[g];
      case _ =>
    }
  }

  lemma {:induction false} WaitingIsLimited(r: Log, schedule: seq<Event>, n: int)
    requires Inv(r) && r.readers <= 1 && n in r.store.enqueued
    ensures n in Run(r, schedule).store.enqueued
    ensures n in Pending(Run(r, schedule)) ==>
      n in Pending(r) && Lag(Run(r, schedule), n) + Landed(r, schedule) <= Lag(r, n)
  {
    if schedule != [] {
      var init, e := schedule[..|schedule| - 1], schedule[|schedule| - 1];
      WaitingIsLimited(r, init, n);
      EveryScheduleKeepsInv(r, init);
      EnqueuedStays(Run(r, init), e, n);
      if n in Pending(Run(r, schedule)) { StepCutsLag(Run(r, init), e, n); }
    }
  }

  lemma EnqueuedStays(r: Log, e: Event, n: int)
    requires Inv(r) && n in r.store.enqueued
    ensures n in Next(r, e).store.enqueued
  {
    if e.Write? { WritersStep(r.store, e.step); }
  }

  lemma {:induction false} ReachableRun(maxEntries: nat, threads: nat, readers: nat, r: Log, schedule: seq<Event>)
    requires Reachable(maxEntries, threads, readers, r)
    ensures Reachable(maxEntries, threads, readers, Run(r, schedule))
  {
    if schedule != [] {
      var init := schedule[..|schedule| - 1];
      ReachableRun(maxEntries, threads, readers, r, init);
      var r' := ReachOn(maxEntries, threads, readers, Run(r, init), schedule[|schedule| - 1]);
    }
  }

  /** Received, or out of the reader's reach for good. */
  ghost predicate Settled(r: Log, n: int) { n in NumbersOf(r.read) || n in r.lost || n in r.overtaken }

  /** Beside writers that keep running, whatever they, failures and delays do in between: once as many
      Refreshes have landed as `n` is ahead of the cursor, the reader has received entry `n`, unless that was
      trimmed before the reader reached it, or overtaken. If Adds do not overlap the last cannot be. */
  lemma ReaderAdvances(maxEntries: nat, threads: nat, readers: nat, r: Log, schedule: seq<Event>, n: int)
    requires Reachable(maxEntries, threads, readers, r) && readers <= 1
    requires n in r.store.enqueued && Landed(r, schedule) >= Lag(r, n)
    ensures Settled(Run(r, schedule), n)
    ensures threads <= 1 ==> n in NumbersOf(Run(r, schedule).read) || n in Run(r, schedule).lost
  {
    var r' := Run(r, schedule);
    ReachableRun(maxEntries, threads, readers, r, schedule);
    ReachableInv(maxEntries, threads, readers, r);
    ReachableInv(maxEntries, threads, readers, r');
    StoreInvariants(maxEntries, threads, readers, r);
    WaitingIsLimited(r, schedule, n);
    if threads <= 1 { OneAddAtATime(maxEntries, threads, readers, r'); }
  }

  /** Every entry enqueued is received or trimmed, once enough Refreshes have landed. */
  ghost predicate Delivers(maxEntries: nat, threads: nat) {
    forall r, schedule, n | Reachable(maxEntries, threads, 1, r) && n in r.store.enqueued
      && Landed(r, schedule) >= Lag(r, n) ::
      n in NumbersOf(Run(r, schedule).read) || n in Run(r, schedule).lost
  }

  /** That holds under every interleaving exactly if Adds do not overlap. */
  lemma DeliversIff(maxEntries: nat, threads: nat)
    ensures Delivers(maxEntries, threads) <==> threads <= 1
  {
    if threads <= 1 {
      forall r, schedule, n | Reachable(maxEntries, threads, 1, r) && n in r.store.enqueued
        && Landed(r, schedule) >= Lag(r, n)
        ensures n in NumbersOf(Run(r, schedule).read) || n in Run(r, schedule).lost
      {
        ReaderAdvances(maxEntries, threads, 1, r, schedule, n);
      }
    } else {
      var r := OverlappingAddsCanHide(maxEntries, threads);
      assert Lag(r, 1) == 0 == Landed(r, []) && Run(r, []) == r;
    }
  }

  /** From any state some Refresh can land within three steps of the reader's own. */
  lemma SomeRefreshCanLand(r: Log, take: int) returns (schedule: seq<Event>)
    requires r.readers >= 1
    ensures |schedule| <= 3 && Landed(r, schedule) == 1 && forall e <- schedule :: !e.Write? && !e.Fail?
  {
    if f :| 0 <= f < |r.refreshes| && r.refreshes[f].Answered? {
      schedule := [];
      schedule := LandsAfter(r, schedule, f);
    } else if f :| 0 <= f < |r.refreshes| && r.refreshes[f].Asked? {
      schedule := [Answer(f, take)];
      NoLandingYet(r, [], Answer(f, take));
      schedule := LandsAfter(r, schedule, f);
    } else {
      NextAsks(r);
      var f := |r.refreshes|;
      schedule := [Ask, Answer(f, take)];
      NoLandingYet(r, [], Ask);
      NoLandingYet(r, [Ask], Answer(f, take));
      schedule := LandsAfter(r, schedule, f);
    }
  }

  lemma NoLandingYet(r: Log, init: seq<Event>, e: Event)
    requires !e.Apply?
    ensures Run(r, init + [e]) == Next(Run(r, init), e) && Landed(r, init + [e]) == Landed(r, init)
  {
    assert (init + [e])[..|init|] == init;
  }

  lemma LandsAfter(r: Log, init: seq<Event>, f: nat) returns (schedule: seq<Event>)
    requires Landed(r, init) == 0 && Lands(Run(r, init), Apply(f))
    ensures schedule == init + [Apply(f)] && Landed(r, schedule) == 1
  {
    schedule := init + [Apply(f)];
    assert schedule[..|init|] == init;
  }

  // ---------- Left alone, the reader catches up ----------

  /** One Refresh from beginning to end, with nothing in between. */
  function Poll(r: Log, take: int): Log {
    var f := |r.refreshes|;
    Next(Next(Next(r, Ask), Answer(f, take)), Apply(f))
  }

  function Polls(r: Log, takes: seq<int>): Log {
    if takes == [] then r else Poll(Polls(r, takes[..|takes| - 1]), takes[|takes| - 1])
  }

  ghost predicate Idle(r: Log) { Inv(r) && r.readers == 1 && forall f <- r.refreshes :: f.Done? }

  lemma NextAsks(r: Log)
    requires r.readers >= 1 && forall f <- r.refreshes :: f.Done?
    ensures Next(r, Ask) == r.(refreshes := r.refreshes + [Asked(r.after)])
  {
    assert UnderWay(r.refreshes) == {};
  }

  lemma NextAnswers(r: Log, before: seq<Refresh>, take: int)
    requires r.refreshes == before + [Asked(r.after)]
    ensures var a := Answered(Page(r.store.queue, r.after, take), r.store.enqueued);
      Next(r, Answer(|before|, take)) == r.(refreshes := before + [a])
  {
  }

  lemma NextApplies(r: Log, before: seq<Refresh>, page: Batch, known: set<int>)
    requires r.refreshes == before + [Answered(page, known)]
    ensures Next(r, Apply(|before|)) == Applied(r, page, known).(refreshes := before + [Done])
  {
    assert r.refreshes[|before| := Done] == before + [Done];
  }

  lemma PollReads(r: Log, take: int)
    requires r.readers >= 1 && forall f <- r.refreshes :: f.Done?
    ensures var page := Page(r.store.queue, r.after, take);
      Poll(r, take) == Applied(r, page, r.store.enqueued).(refreshes := r.refreshes + [Done])
  {
    var page, before := Page(r.store.queue, r.after, take), r.refreshes;
    NextAsks(r);
    NextAnswers(Next(r, Ask), before, take);
    NextApplies(Next(Next(r, Ask), Answer(|before|, take)), before, page, r.store.enqueued);
  }

  lemma PollKeepsIdle(r: Log, take: int)
    requires Idle(r)
    ensures Idle(Poll(r, take))
  {
    var f := |r.refreshes|;
    StepKeepsInv(r, Ask);
    StepKeepsInv(Next(r, Ask), Answer(f, take));
    StepKeepsInv(Next(Next(r, Ask), Answer(f, take)), Apply(f));
    PollReads(r, take);
  }

  lemma SomethingNewer(s: seq<Entry>, after: int)
    requires Above(s, after) != {}
    ensures Newer(s, after) != []
  {
    NewerIsFilter(s, after);
    var n :| n in Above(s, after);
    var e :| e in s && e.number == n;
    assert e in Newer(s, after);
  }

  /** While anything is newer than the cursor, a page moves the cursor. */
  lemma PageMoves(s: seq<Entry>, after: int, take: int)
    requires DistinctNumbers(s) && Above(s, after) != {}
    ensures Page(s, after, take).entries != [] && Above(s, Page(s, after, take).nextAfter) < Above(s, after)
  {
    var page := Page(s, after, take);
    PageTakes(s, after, take);
    SomethingNewer(s, after);
    assert page.entries[0] in page.entries;
    assert page.entries[0].number in Above(s, after) - Above(s, page.nextAfter);
  }

  lemma AppliedTakesSome(r: Log, page: Batch)
    requires r.lost !! NumbersOf(page.entries) && (page.entries == [] ==> Pending(r) == {})
    requires Above(r.store.queue, page.nextAfter) < Pending(r) || Pending(r) == {}
    requires page.nextAfter >= r.after
    ensures var r' := Applied(r, page, r.store.enqueued);
      && r'.store == r.store && r'.lost == r.lost && r'.overtaken == r.overtaken
      && (Pending(r') == {} || |Pending(r')| < |Pending(r)|)
  {
    assert BehindCursor(r.store.enqueued - r.store.enqueued, page.nextAfter) == {};
    if Pending(r) != {} { Smaller(Above(r.store.queue, page.nextAfter), Pending(r)); }
  }

  lemma PollTakesSome(r: Log, take: int)
    requires Idle(r)
    ensures var r' := Poll(r, take);
      && r'.store == r.store && r'.lost == r.lost && r'.overtaken == r.overtaken
      && (Pending(r') == {} || |Pending(r')| < |Pending(r)|)
  {
    PollReads(r, take);
    PageTakes(r.store.queue, r.after, take);
    if Pending(r) != {} { PageMoves(r.store.queue, r.after, take); }
    AppliedTakesSome(r, Page(r.store.queue, r.after, take));
  }

  lemma {:induction false} PollsDrain(r: Log, takes: seq<int>)
    requires Idle(r)
    ensures var r' := Polls(r, takes);
      && Idle(r') && r'.store == r.store && r'.lost == r.lost && r'.overtaken == r.overtaken
      && (Pending(r') == {} || |Pending(r')| + |takes| <= |Pending(r)|)
  {
    if takes != [] {
      var init, last := takes[..|takes| - 1], takes[|takes| - 1];
      PollsDrain(r, init);
      PollKeepsIdle(Polls(r, init), last);
      PollTakesSome(Polls(r, init), last);
    }
  }

  lemma AllReceived(r: Log)
    requires Accounted(r) && Pending(r) == {}
    ensures NumbersOf(r.read) == r.store.enqueued - r.lost - r.overtaken
  {
  }

  /** Left alone by writers, the reader needs no more polls than there are entries pending to have received
      every entry that was ever enqueued, except those trimmed before it reached them and those overtaken. */
  lemma {:induction false} ReaderCatchesUp(maxEntries: nat, threads: nat, r: Log, takes: seq<int>)
    requires Reachable(maxEntries, threads, 1, r) && (forall f <- r.refreshes :: f.Done?) && |takes| >= |Pending(r)|
    ensures NumbersOf(Polls(r, takes).read) == r.store.enqueued - r.lost - r.overtaken
    ensures threads <= 1 ==> NumbersOf(Polls(r, takes).read) == r.store.enqueued - r.lost
  {
    ReachableInv(maxEntries, threads, 1, r);
    StoreInvariants(maxEntries, threads, 1, r);
    PollsDrain(r, takes);
    AllReceived(Polls(r, takes));
    if threads <= 1 { OneAddAtATime(maxEntries, threads, 1, r); }
  }
}
