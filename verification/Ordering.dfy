/** Directed graphs over a list of nodes: topological orders, the stable one among them, and cycles. */
module Ordering {

  /** `nodes` keeps the order in which the nodes were added. */
  datatype Graph<T(==)> = Graph(nodes: seq<T>, arrows: set<(T, T)>)

  function SetOf<T(==)>(s: seq<T>): set<T> {
    set c | c in s
  }

  predicate Distinct<T(==)>(s: seq<T>) {
    forall i, j | 0 <= i < j < |s| :: s[i] != s[j]
  }

  // ---------- Orders ----------

  /** The nodes that still hold `v` back once `emitted` has been placed. */
  ghost function Blocking<T>(g: Graph<T>, emitted: seq<T>, v: T): set<T> {
    set u | u in g.nodes && u !in emitted && (u, v) in g.arrows
  }

  ghost predicate Arrangement<T>(nodes: seq<T>, order: seq<T>) {
    && Distinct(order)
    && (forall c <- order :: c in nodes)
    && (forall c <- nodes :: c in order)
  }

  /** No arrow points backwards, or from a node to itself. */
  ghost predicate Forward<T>(g: Graph<T>, order: seq<T>) {
    forall i, j | 0 <= i <= j < |order| :: (order[j], order[i]) !in g.arrows
  }

  ghost predicate Topological<T>(g: Graph<T>, order: seq<T>) {
    Arrangement(g.nodes, order) && Forward(g, order)
  }

  /** First position of `c`; the add index when the list has no duplicates. */
  function IndexOf<T(==)>(s: seq<T>, c: T): (i: nat)
    requires c in s
    ensures i < |s| && s[i] == c
    ensures Distinct(s) ==> forall j | 0 <= j < |s| && s[j] == c :: j == i
  {
    if s[0] == c then 0 else 1 + IndexOf(s[1..], c)
  }

  /** `next` is, among the unplaced nodes that nothing holds back, the one added first. */
  ghost predicate StablePick<T(!new)>(g: Graph<T>, emitted: seq<T>, next: T) {
    && next in g.nodes && next !in emitted && Blocking(g, emitted, next) == {}
    && forall c :: c in g.nodes && c !in emitted && Blocking(g, emitted, c) == {}
                   ==> IndexOf(g.nodes, next) <= IndexOf(g.nodes, c)
  }

  /** `order` comes from always taking the stable pick, for as long as it goes. */
  ghost predicate StablePrefix<T(!new)>(g: Graph<T>, order: seq<T>) {
    forall k | 0 <= k < |order| :: StablePick(g, order[..k], order[k])
  }

  ghost predicate StableOrder<T(!new)>(g: Graph<T>, order: seq<T>) {
    StablePrefix(g, order) && forall c <- g.nodes :: c in order
  }

  lemma StablePrefixMembers<T(!new)>(g: Graph<T>, order: seq<T>)
    requires StablePrefix(g, order)
    ensures Distinct(order) && forall c <- order :: c in g.nodes
  {
    forall i, j | 0 <= i < j < |order| ensures order[i] != order[j] {
      assert StablePick(g, order[..j], order[j]);
      assert order[..j][i] == order[i];
    }
    forall c | c in order ensures c in g.nodes {
      var k :| 0 <= k < |order| && order[k] == c;
      assert StablePick(g, order[..k], order[k]);
    }
  }

  lemma StablePrefixIsForward<T(!new)>(g: Graph<T>, order: seq<T>)
    requires StablePrefix(g, order)
    ensures Forward(g, order)
  {
    StablePrefixMembers(g, order);
    forall i, j | 0 <= i <= j < |order| ensures (order[j], order[i]) !in g.arrows {
      assert StablePick(g, order[..i], order[i]);
      assert forall m | 0 <= m < i :: order[m] != order[j];
      assert order[j] !in order[..i];
      assert order[j] !in Blocking(g, order[..i], order[i]);
    }
  }

  ghost predicate PredecessorClosed<T>(g: Graph<T>, order: seq<T>) {
    forall u, v :: v in order && u in g.nodes && (u, v) in g.arrows ==> u in order
  }

  lemma StablePrefixIsClosed<T(!new)>(g: Graph<T>, order: seq<T>)
    requires StablePrefix(g, order)
    ensures PredecessorClosed(g, order)
  {
    forall u, v | v in order && u in g.nodes && (u, v) in g.arrows ensures u in order {
      var k :| 0 <= k < |order| && order[k] == v;
      assert StablePick(g, order[..k], order[k]);
      assert u !in Blocking(g, order[..k], v);
    }
  }

  /** In a topological order nothing holds back the node at `k` once those before it are placed. */
  lemma TopologicalIsReady<T(!new)>(g: Graph<T>, order: seq<T>, k: nat)
    requires Topological(g, order) && k < |order|
    ensures Blocking(g, order[..k], order[k]) == {}
  {
    forall u | u in g.nodes && (u, order[k]) in g.arrows ensures u in order[..k] {
      var m :| 0 <= m < |order| && order[m] == u;
      assert m < k;
      assert order[..k][m] == u;
    }
  }

  /** `a` comes before `b` when positions are compared by add index, first difference deciding. */
  ghost predicate LexBefore<T>(nodes: seq<T>, a: seq<T>, b: seq<T>)
    requires forall c <- a :: c in nodes
    requires forall c <- b :: c in nodes
  {
    exists k :: && 0 <= k < |a| && k < |b| && a[..k] == b[..k]
                && IndexOf(nodes, a[k]) < IndexOf(nodes, b[k])
  }

  /** Where a topological order first departs from the stable one, it takes a node added later. */
  lemma StableTakesEarlier<T(!new)>(g: Graph<T>, order: seq<T>, other: seq<T>, k: nat)
    requires Distinct(g.nodes) && StablePrefix(g, order) && Topological(g, other)
    requires k < |order| && k < |other| && order[..k] == other[..k] && order[k] != other[k]
    ensures order[k] in g.nodes && other[k] in g.nodes && IndexOf(g.nodes, order[k]) < IndexOf(g.nodes, other[k])
  {
    assert StablePick(g, order[..k], order[k]);
    TopologicalIsReady(g, other, k);
    assert other[k] !in other[..k];
    assert g.nodes[IndexOf(g.nodes, order[k])] == order[k];
    assert g.nodes[IndexOf(g.nodes, other[k])] == other[k];
  }

  /** The stable order is the lexicographically least of all topological orders. */
  lemma StableIsLeast<T(!new)>(g: Graph<T>, order: seq<T>, other: seq<T>)
    requires Distinct(g.nodes) && StableOrder(g, order) && Topological(g, other)
    ensures forall c <- order :: c in g.nodes
    ensures order == other || LexBefore(g.nodes, order, other)
  {
    StablePrefixMembers(g, order);
    SameLength(order, other);
    if order != other {
      var k := FirstDifference(order, other);
      StableTakesEarlier(g, order, other, k);
    }
  }

  lemma {:induction false} FirstDifference<T>(a: seq<T>, b: seq<T>) returns (k: nat)
    requires |a| == |b| && a != b
    ensures k < |a| && a[..k] == b[..k] && a[k] != b[k]
  {
    var n := |a| - 1;
    assert a == a[..n] + [a[n]] && b == b[..n] + [b[n]];
    if a[..n] == b[..n] {
      k := n;
    } else {
      k := FirstDifference(a[..n], b[..n]);
      assert a[..n][..k] == a[..k] && b[..n][..k] == b[..k];
    }
  }

  lemma {:induction false} DistinctCardinality<T>(s: seq<T>)
    requires Distinct(s)
    ensures |set c | c in s| == |s|
  {
    if s != [] {
      var init := s[..|s| - 1];
      DistinctCardinality(init);
      assert (set c | c in s) == (set c | c in init) + {s[|s| - 1]};
    } else {
      assert (set c | c in s) == {};
    }
  }

  lemma SameLength<T>(a: seq<T>, b: seq<T>)
    requires Distinct(a) && Distinct(b)
    requires (forall c <- a :: c in b) && (forall c <- b :: c in a)
    ensures |a| == |b|
  {
    DistinctCardinality(a);
    DistinctCardinality(b);
    assert (set c | c in a) == (set c | c in b);
  }

  /** A prefix as long as the whole list has placed everything. */
  lemma FullPrefixIsArrangement<T>(nodes: seq<T>, order: seq<T>)
    requires Distinct(nodes) && Distinct(order) && forall c <- order :: c in nodes
    ensures |order| <= |nodes|
    ensures |order| == |nodes| <==> Arrangement(nodes, order)
  {
    DistinctCardinality(nodes);
    DistinctCardinality(order);
    var whole, placed := set c | c in nodes, set c | c in order;
    assert whole == placed + (whole - placed);
    if |order| == |nodes| {
      assert forall c <- nodes :: c in placed;
    }
    if Arrangement(nodes, order) {
      assert placed == whole;
    }
  }

  lemma StablePickIsUnique<T(!new)>(g: Graph<T>, emitted: seq<T>, a: T, b: T)
    requires StablePick(g, emitted, a) && StablePick(g, emitted, b)
    ensures a == b
  {
    assert IndexOf(g.nodes, a) == IndexOf(g.nodes, b);
  }

  lemma NextAgrees<T(!new)>(g: Graph<T>, a: seq<T>, b: seq<T>, k: nat)
    requires StablePrefix(g, a) && StablePrefix(g, b) && k < |a| && k < |b| && a[..k] == b[..k]
    ensures a[k] == b[k]
  {
    StablePickIsUnique(g, a[..k], a[k], b[k]);
  }

  /** There is only one stable order. */
  lemma StableIsUnique<T(!new)>(g: Graph<T>, a: seq<T>, b: seq<T>)
    requires StableOrder(g, a) && StableOrder(g, b)
    ensures a == b
  {
    StablePrefixMembers(g, a);
    StablePrefixMembers(g, b);
    SameLength(a, b);
    if a != b {
      var k := FirstDifference(a, b);
      NextAgrees(g, a, b, k);
    }
  }

  /** If adding was already in a topological order, that order is the stable one. */
  lemma AddOrderIsKept<T(!new)>(g: Graph<T>)
    requires Topological(g, g.nodes)
    ensures StableOrder(g, g.nodes)
  {
    forall k | 0 <= k < |g.nodes| ensures StablePick(g, g.nodes[..k], g.nodes[k]) {
      TopologicalIsReady(g, g.nodes, k);
      assert forall m | 0 <= m < k :: g.nodes[m] in g.nodes[..k];
      forall c | c in g.nodes && c !in g.nodes[..k]
        ensures IndexOf(g.nodes, g.nodes[k]) <= IndexOf(g.nodes, c)
      {
        assert g.nodes[IndexOf(g.nodes, c)] == c;
      }
    }
  }

  // ---------- Cycles ----------

  ghost predicate IsPath<T>(g: Graph<T>, p: seq<T>) {
    && p != []
    && (forall c <- p :: c in g.nodes)
    && (forall i | 0 <= i < |p| - 1 :: (p[i], p[i + 1]) in g.arrows)
  }

  ghost predicate OnCycle<T(!new)>(g: Graph<T>, c: T) {
    exists p: seq<T> :: IsPath(g, p) && |p| >= 2 && p[0] == c && p[|p| - 1] == c
  }

  /** Some path leads to `v` from a node on a cycle. */
  ghost predicate DownstreamOfCycle<T(!new)>(g: Graph<T>, v: T) {
    exists p: seq<T> :: IsPath(g, p) && p[|p| - 1] == v && OnCycle(g, p[0])
  }

  ghost predicate Acyclic<T(!new)>(g: Graph<T>) {
    forall c <- g.nodes :: !OnCycle(g, c)
  }

  lemma InitialPath<T>(g: Graph<T>, p: seq<T>)
    requires IsPath(g, p) && |p| > 1
    ensures IsPath(g, p[..|p| - 1])
  {
  }

  /** Placed nodes form a set closed under predecessors, so a path into it lies within it. */
  lemma {:induction false} PathStaysPlaced<T(!new)>(g: Graph<T>, order: seq<T>, p: seq<T>)
    requires PredecessorClosed(g, order) && IsPath(g, p) && p[|p| - 1] in order
    ensures forall c <- p :: c in order
  {
    var last := |p| - 1;
    if last > 0 {
      assert (p[last - 1], p[last - 1 + 1]) in g.arrows && p[last - 1] in g.nodes;
      InitialPath(g, p);
      PathStaysPlaced(g, order, p[..last]);
      assert p == p[..last] + [p[last]];
    }
  }

  /** Along a path within a forward order, positions only grow. */
  lemma {:induction false} PathClimbs<T(!new)>(g: Graph<T>, order: seq<T>, p: seq<T>)
    requires Forward(g, order) && IsPath(g, p) && forall c <- p :: c in order
    ensures p[0] in order && p[|p| - 1] in order
    ensures IndexOf(order, p[0]) + |p| <= IndexOf(order, p[|p| - 1]) + 1
  {
    if |p| > 1 {
      InitialPath(g, p);
      PathClimbs(g, order, p[..|p| - 1]);
      assert (p[|p| - 2], p[|p| - 2 + 1]) in g.arrows;
      var i, j := IndexOf(order, p[|p| - 1]), IndexOf(order, p[|p| - 2]);
      assert order[i] == p[|p| - 1] && order[j] == p[|p| - 2];
    }
  }

  lemma PlacedIsNotDownstream<T(!new)>(g: Graph<T>, order: seq<T>, v: T)
    requires StablePrefix(g, order) && v in order
    ensures !DownstreamOfCycle(g, v)
  {
    StablePrefixIsForward(g, order);
    StablePrefixIsClosed(g, order);
    forall p: seq<T>, q: seq<T>
      | IsPath(g, p) && p[|p| - 1] == v && IsPath(g, q) && |q| >= 2 && q[0] == p[0]
      ensures q[|q| - 1] != p[0]
    {
      PathStaysPlaced(g, order, p);
      if q[|q| - 1] in order {
        PathStaysPlaced(g, order, q);
        PathClimbs(g, order, q);
      }
    }
  }

  ghost predicate HasPredecessor<T(!new)>(g: Graph<T>, s: set<T>, c: T) {
    exists u :: u in s && (u, c) in g.arrows
  }

  /** Walking `n` steps back from `v` among nodes that all have a predecessor among themselves. */
  lemma {:induction false} WalkBack<T(!new)>(g: Graph<T>, stuck: set<T>, v: T, n: nat) returns (p: seq<T>)
    requires v in stuck && forall c <- stuck :: c in g.nodes && HasPredecessor(g, stuck, c)
    ensures IsPath(g, p) && |p| == n + 1 && p[n] == v && forall c <- p :: c in stuck
  {
    if n == 0 {
      p := [v];
    } else {
      var q := WalkBack(g, stuck, v, n - 1);
      assert q[0] in stuck;
      var u :| u in stuck && (u, q[0]) in g.arrows;
      p := [u] + q;
      assert forall i | 0 < i < |p| :: p[i] == q[i - 1];
    }
  }

  lemma {:induction false} Pigeonhole<T>(p: seq<T>, s: set<T>) returns (i: nat, j: nat)
    requires |p| > |s| && forall c <- p :: c in s
    ensures i < j < |p| && p[i] == p[j]
  {
    var last := p[|p| - 1];
    var init := p[..|p| - 1];
    if last in init {
      i :| 0 <= i < |init| && init[i] == last;
      j := |p| - 1;
    } else {
      i, j := Pigeonhole(init, s - {last});
    }
  }

  lemma SlicePath<T(!new)>(g: Graph<T>, p: seq<T>, i: nat, j: nat)
    requires IsPath(g, p) && i < j <= |p|
    ensures IsPath(g, p[i..j])
  {
    forall k | 0 <= k < j - i - 1 ensures (p[i..j][k], p[i..j][k + 1]) in g.arrows {
      assert (p[i + k], p[i + k + 1]) in g.arrows;
    }
  }

  lemma StuckIsDownstream<T(!new)>(g: Graph<T>, stuck: set<T>, v: T)
    requires v in stuck && forall c <- stuck :: c in g.nodes && HasPredecessor(g, stuck, c)
    ensures DownstreamOfCycle(g, v)
  {
    var p := WalkBack(g, stuck, v, |stuck|);
    var i, j := Pigeonhole(p, stuck);
    SlicePath(g, p, i, |p|);
    SlicePath(g, p, i, j + 1);
    var cycle := p[i..j + 1];
    assert cycle[0] == p[i] && cycle[|cycle| - 1] == p[j];
    assert OnCycle(g, p[i..|p|][0]);
  }

  /** When no further pick is possible, what is left is exactly what lies downstream of a cycle. */
  lemma LeftOverIsDownstream<T(!new)>(g: Graph<T>, order: seq<T>)
    requires StablePrefix(g, order)
    requires forall c :: c in g.nodes && c !in order ==> Blocking(g, order, c) != {}
    ensures forall v :: v in g.nodes ==> (v !in order <==> DownstreamOfCycle(g, v))
  {
    var stuck := set c | c in g.nodes && c !in order;
    forall c | c in stuck ensures HasPredecessor(g, stuck, c) {
      var u :| u in Blocking(g, order, c);
      assert u in stuck;
    }
    forall v | v in g.nodes ensures v !in order <==> DownstreamOfCycle(g, v) {
      if v in order {
        PlacedIsNotDownstream(g, order, v);
      } else {
        StuckIsDownstream(g, stuck, v);
      }
    }
  }

  lemma CycleIsDownstreamOfItself<T(!new)>(g: Graph<T>, c: T)
    requires OnCycle(g, c)
    ensures DownstreamOfCycle(g, c)
  {
    var p: seq<T> :| IsPath(g, p) && |p| >= 2 && p[0] == c && p[|p| - 1] == c;
    assert p[0] == c;
  }

  lemma DownstreamNeedsCycle<T(!new)>(g: Graph<T>, v: T)
    requires DownstreamOfCycle(g, v)
    ensures !Acyclic(g)
  {
    var p: seq<T> :| IsPath(g, p) && p[|p| - 1] == v && OnCycle(g, p[0]);
    assert p[0] in g.nodes;
  }

  /** Once everything is placed there is no cycle; and with no cycle nothing can be left over. */
  lemma AcyclicIffAllPlaced<T(!new)>(g: Graph<T>, order: seq<T>)
    requires forall v :: v in g.nodes ==> (v !in order <==> DownstreamOfCycle(g, v))
    ensures Acyclic(g) <==> forall c <- g.nodes :: c in order
  {
    forall c | c in g.nodes && OnCycle(g, c) ensures DownstreamOfCycle(g, c) {
      CycleIsDownstreamOfItself(g, c);
    }
    if v :| v in g.nodes && v !in order {
      DownstreamNeedsCycle(g, v);
    }
  }

  // ---------- Graphs that look alike ----------

  /** Node by node, in add order, the same arrows. */
  ghost predicate SameGraph<T, U>(g: Graph<T>, h: Graph<U>) {
    && |g.nodes| == |h.nodes|
    && forall i, j | 0 <= i < |g.nodes| && 0 <= j < |g.nodes| ::
         (g.nodes[i], g.nodes[j]) in g.arrows <==> (h.nodes[i], h.nodes[j]) in h.arrows
  }

  ghost predicate SamePosition<T, U>(nodes: seq<T>, v: T, nodes': seq<U>, v': U) {
    v in nodes && v' in nodes' && IndexOf(nodes, v) == IndexOf(nodes', v')
  }

  ghost predicate SamePositions<T, U>(nodes: seq<T>, order: seq<T>, nodes': seq<U>, order': seq<U>) {
    |order| == |order'| && forall k | 0 <= k < |order| :: SamePosition(nodes, order[k], nodes', order'[k])
  }

  lemma SamePlaced<T, U>(nodes: seq<T>, e: seq<T>, v: T, nodes': seq<U>, e': seq<U>, v': U)
    requires SamePositions(nodes, e, nodes', e') && SamePosition(nodes, v, nodes', v')
    ensures v in e <==> v' in e'
  {
    if v in e {
      var k :| 0 <= k < |e| && e[k] == v;
      assert SamePosition(nodes, e[k], nodes', e'[k]) && e'[k] == v';
    }
    if v' in e' {
      var k :| 0 <= k < |e'| && e'[k] == v';
      assert SamePosition(nodes, e[k], nodes', e'[k]) && e[k] == v;
    }
  }

  lemma NodeAt<T>(nodes: seq<T>, i: nat)
    requires Distinct(nodes) && i < |nodes|
    ensures IndexOf(nodes, nodes[i]) == i
  {
  }

  lemma SameBlocked<T(!new), U(!new)>(g: Graph<T>, e: seq<T>, v: T, h: Graph<U>, e': seq<U>, v': U)
    requires Distinct(g.nodes) && Distinct(h.nodes) && SameGraph(g, h)
    requires SamePositions(g.nodes, e, h.nodes, e') && SamePosition(g.nodes, v, h.nodes, v')
    ensures Blocking(g, e, v) == {} <==> Blocking(h, e', v') == {}
  {
    forall i | 0 <= i < |g.nodes|
      ensures g.nodes[i] in Blocking(g, e, v) <==> h.nodes[i] in Blocking(h, e', v')
    {
      NodeAt(g.nodes, i);
      NodeAt(h.nodes, i);
      SamePlaced(g.nodes, e, g.nodes[i], h.nodes, e', h.nodes[i]);
    }
  }

  lemma PickCarriesOver<T(!new), U(!new)>(g: Graph<T>, e: seq<T>, v: T, h: Graph<U>, e': seq<U>, v': U)
    requires Distinct(g.nodes) && Distinct(h.nodes) && SameGraph(g, h)
    requires SamePositions(g.nodes, e, h.nodes, e') && SamePosition(g.nodes, v, h.nodes, v') && StablePick(g, e, v)
    ensures StablePick(h, e', v')
  {
    SamePlaced(g.nodes, e, v, h.nodes, e', v');
    SameBlocked(g, e, v, h, e', v');
    forall c' | c' in h.nodes && c' !in e' && Blocking(h, e', c') == {}
      ensures IndexOf(h.nodes, v') <= IndexOf(h.nodes, c')
    {
      var c := g.nodes[IndexOf(h.nodes, c')];
      NodeAt(g.nodes, IndexOf(h.nodes, c'));
      SamePlaced(g.nodes, e, c, h.nodes, e', c');
      SameBlocked(g, e, c, h, e', c');
    }
  }

  /** The stable order depends on the arrows and the add order only, not on what the nodes are. */
  lemma StableCarriesOver<T(!new), U(!new)>(g: Graph<T>, h: Graph<U>, order: seq<T>, order': seq<U>)
    requires Distinct(g.nodes) && Distinct(h.nodes) && SameGraph(g, h)
    requires SamePositions(g.nodes, order, h.nodes, order') && StableOrder(g, order)
    ensures StableOrder(h, order')
  {
    forall k | 0 <= k < |order'| ensures StablePick(h, order'[..k], order'[k]) {
      PickCarriesOver(g, order[..k], order[k], h, order'[..k], order'[k]);
    }
    forall c' | c' in h.nodes ensures c' in order' {
      var c := g.nodes[IndexOf(h.nodes, c')];
      NodeAt(g.nodes, IndexOf(h.nodes, c'));
      SamePlaced(g.nodes, order, c, h.nodes, order', c');
    }
  }
}
