/** A directed graph in the manner of networkx's `DiGraph`: a set of nodes,
    the attribute record of every node that was added with one, and a set of
    (source, target) edges. */
module DiGraphs {

  class DiGraph<L(==,!new), D> {
    var nodes: set<L>
    var attrs: map<L, D>
    var edges: set<(L, L)>

    /** Only registered nodes carry attributes, and every edge endpoint is a node. */
    ghost predicate Valid()
      reads this
    {
      && attrs.Keys <= nodes
      && forall e :: e in edges ==> e.0 in nodes && e.1 in nodes
    }

    constructor ()
      ensures Valid()
      ensures nodes == {} && attrs == map[] && edges == {}
    {
      nodes, attrs, edges := {}, map[], {};
    }

    /** `add_node(n, **attr)`: registers `n` and sets its attribute record. */
    method AddNode(n: L, d: D)
      requires Valid()
      modifies this
      ensures Valid()
      ensures nodes == old(nodes) + {n}
      ensures attrs == old(attrs)[n := d]
      ensures edges == old(edges)
    {
      nodes := nodes + {n};
      attrs := attrs[n := d];
    }

    /** `add_edge(u, v)`: inserts the edge; an endpoint not yet registered
        becomes a node without attributes, as networkx does. */
    method AddEdge(u: L, v: L)
      requires Valid()
      modifies this
      ensures Valid()
      ensures nodes == old(nodes) + {u, v}
      ensures attrs == old(attrs)
      ensures edges == old(edges) + {(u, v)}
    {
      nodes := nodes + {u, v};
      edges := edges + {(u, v)};
    }

    /** `successors(u)`. */
    function Successors(u: L): (s: set<L>)
      reads this
      ensures forall v :: v in s <==> (u, v) in edges
    {
      set e | e in edges && e.0 == u :: e.1
    }

  }

  /** The endpoints of a set of edges. */
  function Ends<L>(E: set<(L, L)>): set<L>
  {
    (set e | e in E :: e.0) + (set e | e in E :: e.1)
  }

  lemma EndsAdd<L>(E: set<(L, L)>, u: L, v: L)
    ensures Ends(E + {(u, v)}) == Ends(E) + {u, v}
  {
    assert (u, v) in E + {(u, v)};
  }

  lemma EndsUnion<L>(A: set<(L, L)>, B: set<(L, L)>)
    ensures Ends(A + B) == Ends(A) + Ends(B)
  {
  }
}
