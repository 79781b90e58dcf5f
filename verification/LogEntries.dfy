/** Log entries and the page that a reader gets: filter, sort, take. */
module LogEntries {

  datatype Entry = Entry(number: int, timestamp: int, simId: string, level: string, message: string)

  datatype Batch = Batch(nextAfter: int, entries: seq<Entry>)

  function Newer(queue: seq<Entry>, after: int): seq<Entry> {
    if queue == [] then []
    else Newer(queue[..|queue| - 1], after) + if queue[|queue| - 1].number > after then [queue[|queue| - 1]] else []
  }

  /** Insertion behind entries with the same number, as a stable sort does. */
  function Insert(s: seq<Entry>, e: Entry): seq<Entry> {
    if s == [] || s[|s| - 1].number <= e.number then s + [e] else Insert(s[..|s| - 1], e) + [s[|s| - 1]]
  }

  function ByNumber(s: seq<Entry>): seq<Entry> {
    if s == [] then [] else Insert(ByNumber(s[..|s| - 1]), s[|s| - 1])
  }

  function Clamp(take: int): nat { if take < 1 then 1 else if take > 500 then 500 else take }

  function First(s: seq<Entry>, n: nat): seq<Entry> { if n <= |s| then s[..n] else s }

  /** What `Get` makes of a snapshot. */
  function Page(snapshot: seq<Entry>, after: int, take: int): Batch {
    var page := First(ByNumber(Newer(snapshot, after)), Clamp(take));
    Batch(if page == [] then after else page[|page| - 1].number, page)
  }

  // ---------- Filter ----------

  ghost predicate DistinctNumbers(s: seq<Entry>) {
    forall i, j | 0 <= i < j < |s| :: s[i].number != s[j].number
  }

  ghost predicate Ascending(s: seq<Entry>) {
    forall i, j | 0 <= i < j < |s| :: s[i].number < s[j].number
  }

  lemma {:induction false} NewerIsFilter(queue: seq<Entry>, after: int)
    ensures forall e :: e in Newer(queue, after) <==> e in queue && e.number > after
    ensures DistinctNumbers(queue) ==> DistinctNumbers(Newer(queue, after))
  {
    if queue != [] {
      var init, last := queue[..|queue| - 1], queue[|queue| - 1];
      NewerIsFilter(init, after);
      assert queue == init + [last];
      if DistinctNumbers(queue) {
        forall e | e in Newer(init, after) ensures e.number != last.number {
          var i :| 0 <= i < |init| && init[i] == e;
        }
      }
    }
  }

  // ---------- Sort ----------

  lemma AppendKeepsOrder(s: seq<Entry>, e: Entry)
    requires Ascending(s) && forall i | 0 <= i < |s| :: s[i].number < e.number
    ensures Ascending(s + [e])
  {
  }

  lemma {:induction false} InsertIsMember(s: seq<Entry>, e: Entry)
    ensures multiset(Insert(s, e)) == multiset(s) + multiset{e}
    ensures forall i | 0 <= i < |Insert(s, e)| :: Insert(s, e)[i] == e || Insert(s, e)[i] in s
  {
    if s != [] && s[|s| - 1].number > e.number {
      InsertIsMember(s[..|s| - 1], e);
      assert s == s[..|s| - 1] + [s[|s| - 1]];
    }
  }

  lemma {:induction false} InsertKeepsOrder(s: seq<Entry>, e: Entry)
    requires Ascending(s) && forall i | 0 <= i < |s| :: s[i].number != e.number
    ensures Ascending(Insert(s, e))
  {
    if s == [] || s[|s| - 1].number <= e.number {
      AppendKeepsOrder(s, e);
    } else {
      var init, last := s[..|s| - 1], s[|s| - 1];
      InsertKeepsOrder(init, e);
      InsertIsMember(init, e);
      forall i | 0 <= i < |Insert(init, e)| ensures Insert(init, e)[i].number < last.number {
        if Insert(init, e)[i] != e {
          var k :| 0 <= k < |init| && init[k] == Insert(init, e)[i];
        }
      }
      AppendKeepsOrder(Insert(init, e), last);
    }
  }

  lemma MultisetOfAppend(s: seq<Entry>, e: Entry)
    ensures multiset(s + [e]) == multiset(s) + multiset{e}
  {
  }

  /** Sorting loses nothing and adds nothing. */
  lemma {:induction false} ByNumberIsPermutation(s: seq<Entry>)
    ensures multiset(ByNumber(s)) == multiset(s)
  {
    if s != [] {
      var init, last := s[..|s| - 1], s[|s| - 1];
      ByNumberIsPermutation(init);
      InsertIsMember(ByNumber(init), last);
      MultisetOfAppend(init, last);
      assert s == init + [last];
    }
  }

  /** Entries of distinct numbers end up in order. */
  lemma {:induction false} ByNumberSorts(s: seq<Entry>)
    requires DistinctNumbers(s)
    ensures Ascending(ByNumber(s))
  {
    if s != [] {
      var init, last := s[..|s| - 1], s[|s| - 1];
      ByNumberSorts(init);
      ByNumberIsPermutation(init);
      SameMembers(ByNumber(init), init);
      forall i | 0 <= i < |ByNumber(init)| ensures ByNumber(init)[i].number != last.number {
        assert ByNumber(init)[i] in ByNumber(init);
        var k :| 0 <= k < |init| && init[k] == ByNumber(init)[i];
      }
      InsertKeepsOrder(ByNumber(init), last);
    }
  }

  lemma SameMembers(a: seq<Entry>, b: seq<Entry>)
    requires multiset(a) == multiset(b)
    ensures |a| == |b| && forall e :: e in a <==> e in b
  {
    assert |multiset(a)| == |a| && |multiset(b)| == |b|;
    forall e ensures e in a <==> e in b {
      assert e in a <==> e in multiset(a);
      assert e in b <==> e in multiset(b);
    }
  }

  // ---------- The page ----------

  /** The page after a cursor: in ascending order the entries above it, up to the new cursor and none of those
      missing; and no more than were asked for, from 1 to 500, but as many unless there are none left. */
  ghost predicate IsPage(snapshot: seq<Entry>, after: int, take: int, b: Batch) {
    && Ascending(b.entries)
    && b.nextAfter >= after
    && (b.entries == [] <==> b.nextAfter == after)
    && (forall e :: e in b.entries <==> e in snapshot && after < e.number <= b.nextAfter)
    && (var most := if take < 1 then 1 else if take > 500 then 500 else take;
        |b.entries| == most
        || (|b.entries| < most && forall e :: e in snapshot && e.number > after ==> e in b.entries))
  }

  lemma FirstOfAscending(s: seq<Entry>, n: nat)
    requires Ascending(s) && n > 0 && s != []
    ensures var p := First(s, n);
      p != [] && Ascending(p) && forall e :: e in p <==> e in s && e.number <= p[|p| - 1].number
  {
    var p := First(s, n);
    forall e | e in s && e.number <= p[|p| - 1].number ensures e in p {
      var k :| 0 <= k < |s| && s[k] == e;
      assert k < |p| && p[k] == e;
    }
  }

  lemma PageIsPage(snapshot: seq<Entry>, after: int, take: int)
    requires DistinctNumbers(snapshot)
    ensures IsPage(snapshot, after, take, Page(snapshot, after, take))
  {
    var newer := Newer(snapshot, after);
    var sorted := ByNumber(newer);
    NewerIsFilter(snapshot, after);
    ByNumberSorts(newer);
    ByNumberIsPermutation(newer);
    SameMembers(sorted, newer);
    if sorted != [] {
      FirstOfAscending(sorted, Clamp(take));
      var page := First(sorted, Clamp(take));
      assert page[|page| - 1] in sorted;
    } else {
      NothingNewer(snapshot, after);
    }
  }

  lemma NothingNewer(snapshot: seq<Entry>, after: int)
    requires Newer(snapshot, after) == []
    ensures forall e | e in snapshot :: e.number <= after
  {
    NewerIsFilter(snapshot, after);
    forall e | e in snapshot ensures e.number <= after {
      assert e.number > after ==> e in Newer(snapshot, after);
    }
  }
}
