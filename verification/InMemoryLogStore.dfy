/** The bounded in-memory log, one call at a time; LogWriters and LogReaders have the threads. */
module InMemoryLogStore {
  import opened LogEntries

  /** The last `n` entries. */
  function Tail(s: seq<Entry>, n: nat): seq<Entry> { if |s| <= n then s else s[|s| - n..] }

  class InMemoryLogStore {
    const maxEntries: nat
    var entries: seq<Entry>
    var lastNumber: nat

    /** The newest entries are there, numbered without a gap up to the last number given out. */
    ghost predicate Valid() reads this {
      && maxEntries >= 100 && |entries| <= maxEntries && |entries| <= lastNumber
      && (forall i | 0 <= i < |entries| :: entries[i].number == lastNumber - |entries| + 1 + i)
    }

    constructor (maxEntries: int)
      ensures Valid() && entries == [] && lastNumber == 0
      ensures this.maxEntries == if maxEntries > 100 then maxEntries else 100
    {
      this.maxEntries := if maxEntries > 100 then maxEntries else 100;
      entries, lastNumber := [], 0;
    }

    method Add(timestamp: int, simId: string, level: string, message: string)
      requires Valid()
      modifies this
      ensures Valid() && lastNumber == old(lastNumber) + 1
      ensures entries == Tail(old(entries) + [Entry(lastNumber, timestamp, simId, level, message)], maxEntries)
      ensures |entries| == if |old(entries)| < maxEntries then |old(entries)| + 1 else maxEntries
      ensures entries[|entries| - 1] == Entry(lastNumber, timestamp, simId, level, message)
      ensures entries[..|entries| - 1] == old(entries)[|old(entries)| + 1 - |entries|..]
    {
      lastNumber := lastNumber + 1;
      entries := entries + [Entry(lastNumber, timestamp, simId, level, message)];
      TrimIfNeeded();
    }

    method TrimIfNeeded()
      modifies `entries
      ensures entries == Tail(old(entries), maxEntries)
      ensures |entries| == (if |old(entries)| < maxEntries then |old(entries)| else maxEntries)
      ensures entries == old(entries)[|old(entries)| - |entries|..]
    {
      while |entries| > maxEntries
        invariant |entries| <= |old(entries)| && entries == old(entries)[|old(entries)| - |entries|..]
        invariant |entries| >= maxEntries || entries == old(entries)
      {
        entries := entries[1..];
      }
    }

    method Get(after: int, take: int) returns (batch: Batch)
      requires Valid()
      ensures batch == Page(entries, after, take) && IsPage(entries, after, take, batch)
    {
      PageIsPage(entries, after, take);
      batch := Page(entries, after, take);
    }
  }
}
