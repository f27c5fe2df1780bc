/** Cycle detection on an edge list by depth-first search. */
module Graph {

  type Name = string

  datatype Edge = Edge(from: Name, to: Name, addedAt: string)

  predicate HasEdge(edges: seq<Edge>, a: Name, b: Name) {
    exists k :: 0 <= k < |edges| && edges[k].from == a && edges[k].to == b
  }

  ghost predicate IsPath(edges: seq<Edge>, p: seq<Name>) {
    forall i :: 0 < i < |p| ==> HasEdge(edges, p[i - 1], p[i])
  }

  // A walk of at least one edge.
  ghost predicate Walk(edges: seq<Edge>, a: Name, b: Name, p: seq<Name>) {
    |p| >= 2 && p[0] == a && p[|p| - 1] == b && IsPath(edges, p)
  }

  ghost predicate Reaches(edges: seq<Edge>, a: Name, b: Name) {
    exists p :: Walk(edges, a, b, p)
  }

  ghost predicate Cyclic(edges: seq<Edge>) {
    exists v :: Reaches(edges, v, v)
  }

  lemma EdgeReaches(edges: seq<Edge>, a: Name, b: Name)
    requires HasEdge(edges, a, b)
    ensures Reaches(edges, a, b)
  {
    assert Walk(edges, a, b, [a, b]);
  }

  lemma ReachesStep(edges: seq<Edge>, a: Name, b: Name, c: Name)
    requires Reaches(edges, a, b) && HasEdge(edges, b, c)
    ensures Reaches(edges, a, c)
  {
    var p :| Walk(edges, a, b, p);
    assert Walk(edges, a, c, p + [c]);
  }

  // No edge leaves the set.
  ghost predicate Closed(edges: seq<Edge>, s: set<Name>) {
    forall k :: 0 <= k < |edges| && edges[k].from in s ==> edges[k].to in s
  }

  lemma {:induction false} WalkStaysInside(edges: seq<Edge>, s: set<Name>, p: seq<Name>, i: nat)
    requires Closed(edges, s) && IsPath(edges, p) && i < |p| && p[0] in s
    ensures p[i] in s
  {
    if i > 0 {
      WalkStaysInside(edges, s, p, i - 1);
      assert HasEdge(edges, p[i - 1], p[i]);
    }
  }

  // Closed under successors, and no cycle passes through it.
  ghost predicate Finished(edges: seq<Edge>, s: set<Name>) {
    Closed(edges, s) && forall v :: v in s ==> !Reaches(edges, v, v)
  }

  lemma FinishOne(edges: seq<Edge>, s: set<Name>, node: Name)
    requires Finished(edges, s) && node !in s
    requires forall b :: HasEdge(edges, node, b) ==> b in s
    ensures Finished(edges, s + {node})
  {
    forall k | 0 <= k < |edges| && edges[k].from in s + {node} ensures edges[k].to in s + {node} {
      if edges[k].from == node { assert HasEdge(edges, node, edges[k].to); }
    }
    if Reaches(edges, node, node) {
      var p :| Walk(edges, node, node, p);
      assert HasEdge(edges, p[0], p[1]);
      assert IsPath(edges, p[1..]) by {
        forall i | 0 < i < |p[1..]| ensures HasEdge(edges, p[1..][i - 1], p[1..][i]) {
          assert HasEdge(edges, p[i], p[i + 1]);
        }
      }
      WalkStaysInside(edges, s, p[1..], |p| - 2);
      assert false;
    }
  }

  // ---------- The search ----------

  ghost predicate Represents(adjacency: map<Name, seq<Name>>, nodes: set<Name>, edges: seq<Edge>) {
    && (forall a, b :: HasEdge(edges, a, b) <==> a in adjacency && b in adjacency[a])
    && (forall k :: 0 <= k < |edges| ==> edges[k].from in nodes && edges[k].to in nodes)
  }

  class DepthFirst {
    ghost const edges: seq<Edge>
    const nodes: set<Name>
    const adjacency: map<Name, seq<Name>>
    var visited: set<Name>
    var active: set<Name>

    constructor (adjacency: map<Name, seq<Name>>, nodes: set<Name>, ghost edges: seq<Edge>)
      requires Represents(adjacency, nodes, edges)
      ensures this.nodes == nodes && this.edges == edges && Valid() && visited == {} && active == {}
    {
      this.adjacency, this.nodes, this.edges := adjacency, nodes, edges;
      visited, active := {}, {};
    }

    ghost predicate Valid()
      reads this
    {
      && Represents(adjacency, nodes, edges)
      && active <= visited <= nodes
      && Finished(edges, visited - active)
    }

    /** Explore from one node. False means the node and all it leads to are finished and lie on no cycle;
        true means there is a cycle. The active set always comes back as it was. */
    method Visit(node: Name) returns (cyclic: bool)
      requires Valid() && node in nodes
      requires forall a :: a in active ==> Reaches(edges, a, node)
      modifies this
      ensures active == old(active) && old(visited) <= visited <= nodes
      ensures cyclic ==> Cyclic(edges)
      ensures !cyclic ==> Valid() && node in visited - active
      decreases nodes - visited
    {
      if node in active {
        return true;
      }
      if node in visited {
        return false;
      }
      visited := visited + {node};
      active := active + {node};
      assert visited - active == old(visited) - old(active);
      cyclic := false;
      var successors := if node in adjacency then adjacency[node] else [];
      var i := 0;
      while i < |successors| && !cyclic
        invariant 0 <= i <= |successors|
        invariant active == old(active) + {node} && old(visited) + {node} <= visited <= nodes
        invariant cyclic ==> Cyclic(edges)
        invariant !cyclic ==> Valid()
        invariant !cyclic ==> forall j :: 0 <= j < i ==> successors[j] in visited - active
      {
        var next := successors[i];
        assert HasEdge(edges, node, next);
        forall a | a in active ensures Reaches(edges, a, next) {
          if a == node { EdgeReaches(edges, node, next); } else { ReachesStep(edges, a, node, next); }
        }
        cyclic := Visit(next);
        i := i + 1;
      }
      if !cyclic {
        FinishOne(edges, visited - active, node);
        assert visited - (active - {node}) == visited - active + {node};
      }
      active := active - {node};
    }
  }

  lemma OneEdgeMore(adjacency: map<Name, seq<Name>>, edges: seq<Edge>, e: Edge)
    requires forall a, b :: HasEdge(edges, a, b) <==> a in adjacency && b in adjacency[a]
    ensures var next := adjacency[e.from := (if e.from in adjacency then adjacency[e.from] else []) + [e.to]];
      forall a, b :: HasEdge(edges + [e], a, b) <==> a in next && b in next[a]
  {
    forall a, b ensures HasEdge(edges + [e], a, b) <==> HasEdge(edges, a, b) || (a == e.from && b == e.to) {
      if HasEdge(edges, a, b) {
        var k :| 0 <= k < |edges| && edges[k].from == a && edges[k].to == b;
        assert (edges + [e])[k] == edges[k];
      }
      if a == e.from && b == e.to { assert (edges + [e])[|edges|] == e; }
    }
  }

  lemma WalkStarts(edges: seq<Edge>, nodes: set<Name>, a: Name, b: Name)
    requires Reaches(edges, a, b) && forall k :: 0 <= k < |edges| ==> edges[k].from in nodes
    ensures a in nodes
  {
    var p :| Walk(edges, a, b, p);
    assert HasEdge(edges, p[0], p[1]);
  }

  lemma NoCycle(edges: seq<Edge>, nodes: set<Name>)
    requires Finished(edges, nodes)
    requires forall k :: 0 <= k < |edges| ==> edges[k].from in nodes
    ensures !Cyclic(edges)
  {
    if Cyclic(edges) {
      var v :| Reaches(edges, v, v);
      WalkStarts(edges, nodes, v, v);
    }
  }

  /** True exactly when the edge list contains a directed cycle; self-loops count. */
  method HasCycle(edges: seq<Edge>) returns (cyclic: bool)
    ensures cyclic <==> Cyclic(edges)
  {
    var adjacency: map<Name, seq<Name>> := map[];
    var nodes: set<Name> := {};
    for i := 0 to |edges|
      invariant Represents(adjacency, nodes, edges[..i])
    {
      var e := edges[i];
      ghost var before := adjacency;
      adjacency := adjacency[e.from := (if e.from in adjacency then adjacency[e.from] else []) + [e.to]];
      nodes := nodes + {e.from, e.to};
      OneEdgeMore(before, edges[..i], e);
      assert edges[..i + 1] == edges[..i] + [e];
    }
    assert edges[..|edges|] == edges;
    var search := new DepthFirst(adjacency, nodes, edges);
    var remaining := nodes;
    cyclic := false;
    while remaining != {} && !cyclic
      invariant remaining <= nodes && search.nodes == nodes && search.edges == edges
      invariant search.active == {}
      invariant cyclic ==> Cyclic(edges)
      invariant !cyclic ==> search.Valid() && nodes - remaining <= search.visited
      decreases |remaining|
    {
      var node :| node in remaining;
      cyclic := search.Visit(node);
      remaining := remaining - {node};
    }
    if !cyclic {
      assert search.visited - search.active == nodes;
      NoCycle(edges, nodes);
    }
  }
}
