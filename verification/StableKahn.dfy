/** The sorting loop of the builder: Kahn's algorithm with a ready list kept in add order. */
module StableKahn {
  import opened Adjacency
  import opened Ordering

  ghost predicate Ascending<T>(s: seq<T>, orderIndex: map<T, nat>)
    requires forall c <- s :: c in orderIndex
  {
    forall i, j | 0 <= i < j < |s| :: orderIndex[s[i]] <= orderIndex[s[j]]
  }

  ghost predicate SameMembers<T(!new)>(a: seq<T>, b: seq<T>) {
    forall c :: c in a <==> c in b
  }

  method InsertByIndex<T(==,!new)>(s: seq<T>, c: T, orderIndex: map<T, nat>) returns (r: seq<T>)
    requires Distinct(s) && c !in s && c in orderIndex && forall x <- s :: x in orderIndex
    requires Ascending(s, orderIndex)
    ensures Distinct(r) && SameMembers(r, s + [c])
    ensures Ascending(r, orderIndex)
  {
    var k := 0;
    while k < |s| && orderIndex[s[k]] <= orderIndex[c]
      invariant k <= |s| && forall i | 0 <= i < k :: orderIndex[s[i]] <= orderIndex[c]
    {
      k := k + 1;
    }
    r := s[..k] + [c] + s[k..];
    assert s == s[..k] + s[k..];
    DistinctWithin(s[..k], c, s[k..]);
    AscendingWithin(s[..k], c, s[k..], orderIndex);
  }

  lemma DistinctWithin<T>(a: seq<T>, c: T, b: seq<T>)
    requires Distinct(a + b) && c !in a && c !in b
    ensures Distinct(a + [c] + b)
  {
    var r, s := a + [c] + b, a + b;
    assert forall i | 0 <= i < |a| :: r[i] == s[i];
    assert forall i | |a| < i < |r| :: r[i] == s[i - 1];
    assert forall i | 0 <= i < |s| :: s[i] != c;
  }

  lemma AscendingWithin<T>(a: seq<T>, c: T, b: seq<T>, orderIndex: map<T, nat>)
    requires c in orderIndex && (forall x <- a + b :: x in orderIndex) && Ascending(a + b, orderIndex)
    requires forall x <- a :: orderIndex[x] <= orderIndex[c]
    requires b != [] ==> orderIndex[b[0]] >= orderIndex[c]
    ensures (forall x <- a + [c] + b :: x in orderIndex) && Ascending(a + [c] + b, orderIndex)
  {
    var r, s := a + [c] + b, a + b;
    assert forall i | 0 <= i < |a| :: r[i] == s[i] == a[i];
    assert forall i | |a| < i < |r| :: r[i] == s[i - 1];
    if b != [] { assert s[|a|] == b[0]; }
  }

  /** `ready.Sort` by add index. */
  method SortByIndex<T(==,!new)>(s: seq<T>, orderIndex: map<T, nat>) returns (r: seq<T>)
    requires Distinct(s) && forall x <- s :: x in orderIndex
    ensures Distinct(r) && SameMembers(r, s)
    ensures Ascending(r, orderIndex)
  {
    r := [];
    for i := 0 to |s|
      invariant Distinct(r) && SameMembers(r, s[..i])
      invariant Ascending(r, orderIndex)
    {
      assert s[..i + 1] == s[..i] + [s[i]];
      assert s[i] !in s[..i];
      r := InsertByIndex(r, s[i], orderIndex);
    }
    assert s[..|s|] == s;
  }

  /** `ready` holds exactly the nodes not in `emitted` that `indegree` says nothing holds back. */
  ghost predicate ReadyList<T(!new)>(g: Graph<T>, emitted: seq<T>, indegree: map<T, int>, ready: seq<T>)
    requires forall c <- g.nodes :: c in indegree
  {
    Distinct(ready) && forall c :: c in ready <==> c in g.nodes && c !in emitted && indegree[c] == 0
  }

  ghost predicate Counts<T(!new)>(g: Graph<T>, emitted: seq<T>, indegree: map<T, int>) {
    forall c <- g.nodes :: c in indegree && indegree[c] == |Blocking(g, emitted, c)|
  }

  lemma BlockingShrinks<T(!new)>(g: Graph<T>, emitted: seq<T>, node: T, v: T)
    requires node in g.nodes && node !in emitted
    ensures var before, after := Blocking(g, emitted, v), Blocking(g, emitted + [node], v);
      && after == before - {node}
      && |after| == |before| - if (node, v) in g.arrows then 1 else 0
  {
    assert Blocking(g, emitted + [node], v) == Blocking(g, emitted, v) - {node};
  }

  /** After emitting `node`, each successor loses one predecessor; those left with none become ready.
      The successors are taken in whatever order the hash set yields. */
  method Release<T(==,!new)>(successors: set<T>, counts: map<T, int>, waiting: seq<T>,
                             ghost g: Graph<T>, ghost emitted: seq<T>, ghost node: T)
    returns (indegree: map<T, int>, ready: seq<T>)
    requires node in g.nodes && node !in emitted && Blocking(g, emitted, node) == {}
    requires PredecessorClosed(g, emitted) && Counts(g, emitted, counts)
    requires forall v :: v in successors <==> v in g.nodes && (node, v) in g.arrows
    requires ReadyList(g, emitted + [node], counts, waiting)
    ensures Counts(g, emitted + [node], indegree)
    ensures ReadyList(g, emitted + [node], indegree, ready)
    ensures indegree.Keys == counts.Keys
  {
    indegree, ready := counts, waiting;
    var todo := successors;
    assert forall v <- successors :: node in Blocking(g, emitted, v);
    assert forall v <- successors :: counts[v] > 0 && v !in emitted && v != node;
    while todo != {}
      invariant todo <= successors && indegree.Keys == counts.Keys
      invariant forall v <- g.nodes ::
        indegree[v] == counts[v] - if v in successors && v !in todo then 1 else 0
      invariant ReadyList(g, emitted + [node], indegree, ready)
    {
      var dep :| dep in todo;
      todo := todo - {dep};
      indegree := indegree[dep := indegree[dep] - 1];
      if indegree[dep] == 0 {
        ready := ready + [dep];
      }
    }
    forall v | v in g.nodes ensures indegree[v] == |Blocking(g, emitted + [node], v)| {
      BlockingShrinks(g, emitted, node, v);
    }
  }

  /** What holds each time the sorting loop tests `ready.Count`. */
  ghost predicate Progress<T(!new)>(g: Graph<T>, sorted: seq<T>, indegree: map<T, int>, ready: seq<T>) {
    && StablePrefix(g, sorted) && Distinct(sorted) && (forall c <- sorted :: c in g.nodes)
    && indegree.Keys == SetOf(g.nodes)
    && Counts(g, sorted, indegree)
    && ReadyList(g, sorted, indegree, ready)
  }

  ghost predicate Indexed<T>(nodes: seq<T>, orderIndex: map<T, nat>) {
    orderIndex.Keys == SetOf(nodes) && forall c <- nodes :: orderIndex[c] == IndexOf(nodes, c)
  }

  lemma PopReady<T(!new)>(g: Graph<T>, sorted: seq<T>, indegree: map<T, int>, ready: seq<T>)
    requires (forall c <- g.nodes :: c in indegree) && ReadyList(g, sorted, indegree, ready) && ready != []
    ensures ReadyList(g, sorted + [ready[0]], indegree, ready[1..])
  {
    assert ready == [ready[0]] + ready[1..];
  }

  lemma Successors<T(!new)>(g: Graph<T>, t: Tables<T>, node: T)
    requires forall a <- g.arrows :: a.0 in g.nodes && a.1 in g.nodes
    requires TablesHold(SetOf(g.nodes), g.arrows, t) && node in g.nodes
    ensures forall v :: v in t.outgoing[node] <==> v in g.nodes && (node, v) in g.arrows
  {
    forall v | (node, v) in g.arrows ensures v in g.nodes {
      assert (node, v).1 in g.nodes;
    }
  }

  /** One round: emit the first ready node and release its successors. */
  method EmitFirst<T(==,!new)>(t: Tables<T>, sorted: seq<T>, indegree: map<T, int>, ready: seq<T>,
                               ghost g: Graph<T>, ghost orderIndex: map<T, nat>)
    returns (sorted': seq<T>, indegree': map<T, int>, ready': seq<T>)
    requires Distinct(g.nodes) && forall a <- g.arrows :: a.0 in g.nodes && a.1 in g.nodes
    requires TablesHold(SetOf(g.nodes), g.arrows, t) && Indexed(g.nodes, orderIndex)
    requires Progress(g, sorted, indegree, ready) && ready != [] && Ascending(ready, orderIndex)
    ensures Progress(g, sorted', indegree', ready') && |sorted'| == |sorted| + 1
  {
    var node := ready[0];
    FirstIsStablePick(g, sorted, indegree, ready, orderIndex);
    StablePrefixIsClosed(g, sorted);
    PopReady(g, sorted, indegree, ready);
    Successors(g, t, node);
    indegree', ready' := Release(t.outgoing[node], indegree, ready[1..], g, sorted, node);
    ExtendStablePrefix(g, sorted, node);
    sorted' := sorted + [node];
  }

  /** The sorting loop. It ends with the longest stable prefix, and `indegree` tells who is left over. */
  method Kahn<T(==,!new)>(nodes: seq<T>, t: Tables<T>, ghost g: Graph<T>)
    returns (sorted: seq<T>, indegree: map<T, int>)
    requires g.nodes == nodes && Distinct(nodes)
    requires forall a <- g.arrows :: a.0 in nodes && a.1 in nodes
    requires TablesHold(SetOf(nodes), g.arrows, t)
    ensures Progress(g, sorted, indegree, [])
    ensures forall c <- nodes :: c in sorted <==> indegree[c] == 0
  {
    var orderIndex := AddIndex(nodes);
    InitialCounts(g, t);
    var ready := InitiallyReady(nodes, t.indegree);
    ready := SortByIndex(ready, orderIndex);
    sorted, indegree := [], t.indegree;
    while |ready| > 0
      invariant Progress(g, sorted, indegree, ready)
      invariant Ascending(ready, orderIndex)
      decreases |nodes| - |sorted|
    {
      sorted, indegree, ready := EmitFirst(t, sorted, indegree, ready, g, orderIndex);
      FullPrefixIsArrangement(nodes, sorted);
      ready := SortByIndex(ready, orderIndex);
    }
    assert ready == [];
    EmittedHasCountZero(g, sorted, indegree);
  }

  method AddIndex<T(==)>(nodes: seq<T>) returns (orderIndex: map<T, nat>)
    requires Distinct(nodes)
    ensures Indexed(nodes, orderIndex)
  {
    orderIndex := map[];
    for i := 0 to |nodes|
      invariant orderIndex.Keys == SetOf(nodes[..i])
      invariant forall j | 0 <= j < i :: orderIndex[nodes[j]] == j
    {
      orderIndex := orderIndex[nodes[i] := i];
    }
    assert nodes[..|nodes|] == nodes;
  }

  method InitiallyReady<T(==,!new)>(nodes: seq<T>, indegree: map<T, int>) returns (ready: seq<T>)
    requires Distinct(nodes) && forall c <- nodes :: c in indegree
    ensures Distinct(ready) && forall c :: c in ready <==> c in nodes && indegree[c] == 0
  {
    ready := [];
    for i := 0 to |nodes|
      invariant Distinct(ready) && forall c :: c in ready <==> c in nodes[..i] && indegree[c] == 0
    {
      assert nodes[i] !in nodes[..i];
      if indegree[nodes[i]] == 0 {
        ready := ready + [nodes[i]];
      }
    }
    assert nodes[..|nodes|] == nodes;
  }

  lemma InitialCounts<T(!new)>(g: Graph<T>, t: Tables<T>)
    requires forall a <- g.arrows :: a.0 in g.nodes && a.1 in g.nodes
    requires TablesHold(SetOf(g.nodes), g.arrows, t)
    ensures Counts(g, [], t.indegree)
  {
    forall c | c in g.nodes ensures t.indegree[c] == |Blocking(g, [], c)| {
      forall a | a in Into(g.arrows, c) ensures a in Blocking(g, [], c) {
        assert (a, c) in g.arrows;
      }
      assert Into(g.arrows, c) == Blocking(g, [], c);
    }
  }

  lemma FirstIsStablePick<T(!new)>(g: Graph<T>, emitted: seq<T>, indegree: map<T, int>, ready: seq<T>,
                                   orderIndex: map<T, nat>)
    requires Distinct(g.nodes) && Indexed(g.nodes, orderIndex)
    requires Counts(g, emitted, indegree) && ReadyList(g, emitted, indegree, ready)
    requires ready != [] && (forall c <- ready :: c in orderIndex) && Ascending(ready, orderIndex)
    ensures StablePick(g, emitted, ready[0])
  {
    assert ready[0] in ready;
    forall c | c in g.nodes && c !in emitted && Blocking(g, emitted, c) == {}
      ensures IndexOf(g.nodes, ready[0]) <= IndexOf(g.nodes, c)
    {
      assert c in ready;
      var j :| 0 <= j < |ready| && ready[j] == c;
    }
  }

  lemma ExtendStablePrefix<T(!new)>(g: Graph<T>, order: seq<T>, next: T)
    requires StablePrefix(g, order) && StablePick(g, order, next)
    ensures StablePrefix(g, order + [next])
  {
    forall k | 0 <= k < |order| + 1 ensures StablePick(g, (order + [next])[..k], (order + [next])[k]) {
      if k == |order| {
        assert (order + [next])[..k] == order;
      } else {
        assert (order + [next])[..k] == order[..k];
      }
    }
  }

  lemma EmittedHasCountZero<T(!new)>(g: Graph<T>, order: seq<T>, indegree: map<T, int>)
    requires StablePrefix(g, order) && Counts(g, order, indegree) && ReadyList(g, order, indegree, [])
    ensures forall c <- g.nodes :: c in order <==> indegree[c] == 0
  {
    StablePrefixIsClosed(g, order);
    forall c | c in g.nodes && c in order ensures indegree[c] == 0 {
      assert Blocking(g, order, c) == {};
    }
    forall c | c in g.nodes && indegree[c] == 0 ensures c in order {
      assert c !in [];
    }
  }

  /** With an empty ready list the sort has gone as far as it can. */
  lemma NothingReadyIsMaximal<T(!new)>(g: Graph<T>, sorted: seq<T>, indegree: map<T, int>)
    requires StablePrefix(g, sorted) && Counts(g, sorted, indegree)
    requires forall c <- g.nodes :: c in sorted <==> indegree[c] == 0
    ensures forall v :: v in g.nodes ==> (v !in sorted <==> DownstreamOfCycle(g, v))
  {
    LeftOverIsHeldBack(g, sorted, indegree);
    LeftOverIsDownstream(g, sorted);
  }

  lemma LeftOverIsHeldBack<T(!new)>(g: Graph<T>, sorted: seq<T>, indegree: map<T, int>)
    requires Counts(g, sorted, indegree)
    requires forall c <- g.nodes :: c in sorted <==> indegree[c] == 0
    ensures forall v :: v in g.nodes ==> (v !in sorted <==> indegree[v] > 0)
    ensures forall v :: v in g.nodes && v !in sorted ==> Blocking(g, sorted, v) != {}
  {
  }

  lemma LeftOverHasCount<T(!new)>(g: Graph<T>, sorted: seq<T>, indegree: map<T, int>)
    requires Counts(g, sorted, indegree)
    requires forall c <- g.nodes :: c in sorted <==> indegree[c] == 0
    ensures forall v :: v in g.nodes ==> (v !in sorted <==> indegree[v] > 0)
  {
  }

  ghost predicate IsDownstreamSet<T(!new)>(g: Graph<T>, left: set<T>) {
    forall v :: v in left <==> v in g.nodes && DownstreamOfCycle(g, v)
  }

  /** The sorting loop and the report: what is left with a positive count lies downstream of a cycle. */
  method SortOrLeftOver<T(==,!new)>(nodes: seq<T>, t: Tables<T>, ghost g: Graph<T>)
    returns (sorted: seq<T>, left: set<T>)
    requires g.nodes == nodes && Distinct(nodes)
    requires forall a <- g.arrows :: a.0 in nodes && a.1 in nodes
    requires TablesHold(SetOf(nodes), g.arrows, t)
    ensures |sorted| == |nodes| <==> Acyclic(g)
    ensures |sorted| == |nodes| ==> StableOrder(g, sorted)
    ensures |sorted| != |nodes| ==> left != {}
    ensures IsDownstreamSet(g, left)
  {
    var indegree;
    sorted, indegree := Kahn(nodes, t, g);
    left := set c | c in nodes && indegree[c] > 0;
    LeftOverHasCount(g, sorted, indegree);
    NothingReadyIsMaximal(g, sorted, indegree);
    AcyclicIffAllPlaced(g, sorted);
    Verdict(g, sorted, left);
  }

  lemma Verdict<T(!new)>(g: Graph<T>, sorted: seq<T>, left: set<T>)
    requires Distinct(g.nodes) && Distinct(sorted) && (forall c <- sorted :: c in g.nodes)
    requires forall v :: v in left <==> v in g.nodes && v !in sorted
    ensures |sorted| == |g.nodes| <==> forall c <- g.nodes :: c in sorted
    ensures |sorted| != |g.nodes| ==> left != {}
  {
    FullPrefixIsArrangement(g.nodes, sorted);
    if v :| v in g.nodes && v !in sorted {
      assert v in left;
    }
  }
}
