/** The two dictionaries in which the builder keeps its dependency graph. */
module Adjacency {
  import opened Ordering

  datatype Tables<T(==)> = Tables(outgoing: map<T, set<T>>, indegree: map<T, int>)

  ghost function Into<T>(arrows: set<(T, T)>, b: T): set<T> {
    set a | a in arrows && a.1 == b :: a.0
  }

  /** The dictionaries hold exactly `arrows`: successors by writer, and a count of predecessors. */
  ghost predicate TablesHold<T(!new)>(nodes: set<T>, arrows: set<(T, T)>, t: Tables<T>) {
    && t.outgoing.Keys == t.indegree.Keys == nodes
    && (forall a, b :: a in nodes ==> (b in t.outgoing[a] <==> (a, b) in arrows))
    && (forall b :: b in nodes ==> t.indegree[b] == |Into(arrows, b)|)
  }

  method EmptyTables<T(==,!new)>(comps: seq<T>) returns (t: Tables<T>)
    ensures TablesHold(SetOf(comps), {}, t)
  {
    var outgoing: map<T, set<T>>, indegree: map<T, int> := map[], map[];
    for i := 0 to |comps|
      invariant outgoing.Keys == indegree.Keys == SetOf(comps[..i])
      invariant forall c <- outgoing :: outgoing[c] == {}
      invariant forall c <- indegree :: indegree[c] == 0
    {
      outgoing, indegree := outgoing[comps[i] := {}], indegree[comps[i] := 0];
    }
    assert comps[..|comps|] == comps;
    t := Tables(outgoing, indegree);
  }

  lemma IntoGrows<T(!new)>(arrows: set<(T, T)>, a: T, b: T)
    requires (a, b) !in arrows
    ensures |Into(arrows + {(a, b)}, b)| == |Into(arrows, b)| + 1
    ensures forall c :: c != b ==> Into(arrows + {(a, b)}, c) == Into(arrows, c)
  {
    var grown := arrows + {(a, b)};
    assert a in Into(grown, b) && a !in Into(arrows, b);
    assert Into(grown, b) == Into(arrows, b) + {a};
  }

  /** The writer gains a successor and the reader a predecessor, unless that arrow is there. */
  method Connect<T(==,!new)>(t: Tables<T>, writer: T, reader: T, ghost nodes: set<T>, ghost arrows: set<(T, T)>)
    returns (t': Tables<T>)
    requires TablesHold(nodes, arrows, t) && writer in nodes && reader in nodes
    ensures TablesHold(nodes, arrows + {(writer, reader)}, t')
  {
    t' := t;
    ghost var grown := arrows + {(writer, reader)};
    if reader in t.outgoing[writer] {
      assert grown == arrows;
    } else {
      IntoGrows(arrows, writer, reader);
      t' := Tables(t.outgoing[writer := t.outgoing[writer] + {reader}], t.indegree[reader := t.indegree[reader] + 1]);
      assert t'.outgoing.Keys == nodes && t'.indegree.Keys == nodes;
      assert forall a, b :: a in nodes ==> (b in t'.outgoing[a] <==> (a, b) in grown);
      assert forall b :: b in nodes ==> t'.indegree[b] == |Into(grown, b)|;
    }
  }
}
