/** The graph container: the vertex, undirected-edge, directed-edge and root
    mixins of the source flattened into one class over vertices of type `V`. */
module Graphs {
  import opened Edges

  /** A list in which no element occurs twice. */
  predicate Distinct<V(==)>(s: seq<V>)
  {
    forall p, q :: 0 <= p < q < |s| ==> s[p] != s[q]
  }

  /** A list without repeats has as many elements as the set of its elements. */
  lemma {:induction false} DistinctCount<V>(s: seq<V>)
    requires Distinct(s)
    ensures |set v | v in s| == |s|
  {
    if s != [] {
      var init, x := s[..|s| - 1], s[|s| - 1];
      assert s == init + [x];
      DistinctCount(init);
      assert (set v | v in s) == (set v | v in init) + {x};
      assert x !in init;
    }
  }

  class Graph<V(==)> {
    var vertices: seq<V>
    var undirected: seq<Undirected<V>>
    var directed: seq<Directed<V>>
    var roots: seq<V>

    /** Vertices that entered through `AddVertex` are never repeated. */
    predicate Valid()
      reads this
    {
      Distinct(vertices)
    }

    constructor ()
      ensures vertices == [] && undirected == [] && directed == [] && roots == []
      ensures Valid()
    {
      vertices := [];
      undirected := [];
      directed := [];
      roots := [];
    }

    /** Adds a vertex unless it is already present; nothing else changes. */
    method AddVertex(vertex: V)
      modifies this
      ensures vertices == if vertex in old(vertices) then old(vertices) else old(vertices) + [vertex]
      ensures undirected == old(undirected) && directed == old(directed) && roots == old(roots)
      ensures old(Valid()) ==> Valid()
    {
      if vertex !in vertices {
        vertices := vertices + [vertex];
      }
    }

    /** The number of vertices. */
    function Order(): (n: nat)
      reads this
      ensures Valid() ==> n == |set v | v in vertices|
    {
      if Valid() then DistinctCount(vertices); |vertices| else |vertices|
    }

    /** Appends one undirected edge; nothing else changes. */
    method AddUndirected(edge: Undirected<V>)
      modifies this
      ensures undirected == old(undirected) + [edge]
      ensures vertices == old(vertices) && directed == old(directed) && roots == old(roots)
    {
      undirected := undirected + [edge];
    }

    /** Appends the given undirected edges in order; nothing else changes. */
    method AddUndirecteds(edges: seq<Undirected<V>>)
      modifies this
      ensures undirected == old(undirected) + edges
      ensures vertices == old(vertices) && directed == old(directed) && roots == old(roots)
    {
      for n := 0 to |edges|
        invariant undirected == old(undirected) + edges[..n]
        invariant vertices == old(vertices) && directed == old(directed) && roots == old(roots)
      {
        AddUndirected(edges[n]);
        assert edges[..n + 1] == edges[..n] + [edges[n]];
      }
      assert edges[..|edges|] == edges;
    }

    /** Whether the graph holds any undirected edge. */
    function HasUndirected(): (b: bool)
      reads this
      ensures b <==> exists e :: e in undirected
    {
      assert undirected != [] ==> undirected[0] in undirected;
      |undirected| > 0
    }

    /** Appends one directed edge; nothing else changes. */
    method AddDirected(edge: Directed<V>)
      modifies this
      ensures directed == old(directed) + [edge]
      ensures vertices == old(vertices) && undirected == old(undirected) && roots == old(roots)
    {
      directed := directed + [edge];
    }

    /** Appends the given directed edges in order; nothing else changes. */
    method AddDirecteds(edges: seq<Directed<V>>)
      modifies this
      ensures directed == old(directed) + edges
      ensures vertices == old(vertices) && undirected == old(undirected) && roots == old(roots)
    {
      for n := 0 to |edges|
        invariant directed == old(directed) + edges[..n]
        invariant vertices == old(vertices) && undirected == old(undirected) && roots == old(roots)
      {
        AddDirected(edges[n]);
        assert edges[..n + 1] == edges[..n] + [edges[n]];
      }
      assert edges[..|edges|] == edges;
    }

    /** Whether the graph holds any directed edge. */
    function HasDirected(): (b: bool)
      reads this
      ensures b <==> exists e :: e in directed
    {
      assert directed != [] ==> directed[0] in directed;
      |directed| > 0
    }

    /** Appends a root, without checking for repeats or membership. */
    method AddRoot(root: V)
      modifies this
      ensures roots == old(roots) + [root]
      ensures vertices == old(vertices) && undirected == old(undirected) && directed == old(directed)
    {
      roots := roots + [root];
    }

    /** The per-kind edge counts as the source has them: the base-class
        getters, which no mixin overrides, each give 0. */
    function SizeUndirectedAsWritten(): int { 0 }
    function SizeDirectedAsWritten(): int { 0 }
    function SizeUndirectedHyperedgeAsWritten(): int { 0 }
    function SizeDirectedHyperedgeAsWritten(): int { 0 }

    /** `size` as written: the sum of the four per-kind counts, which is 0
        however many edges were added. */
    function SizeAsWritten(): (n: int)
      ensures n == 0
    {
      SizeUndirectedAsWritten() + SizeDirectedAsWritten() +
      SizeUndirectedHyperedgeAsWritten() + SizeDirectedHyperedgeAsWritten()
    }

    /** `size` as documented: the number of edges. The flattened graph holds
        no hyperedge lists, so the hyperedge counts are 0. */
    function Size(): (n: nat)
      reads this
      ensures n == |undirected| + |directed|
      ensures n == 0 <==> !HasUndirected() && !HasDirected()
      ensures n >= |undirected| && n >= |directed|
    {
      |undirected| + |directed|
    }
  }

  /** Once an edge has been added, `size` as written disagrees with the
      number of edges. */
  lemma SizeAsWrittenMissesEdges<V>(g: Graph<V>)
    requires g.HasUndirected() || g.HasDirected()
    ensures g.SizeAsWritten() != g.Size()
  {
  }

  /** Adding an edge to an empty graph: as written `size` stays 0, while the
      corrected `size` counts the edge. */
  method SizeExample<V(==)>(pair: array<V>) returns (asWritten: int, corrected: nat)
    requires pair.Length == 2
    ensures asWritten == 0 && corrected == 1
  {
    var g := new Graph<V>();
    var e := new Undirected(pair);
    g.AddUndirected(e);
    asWritten := g.SizeAsWritten();
    corrected := g.Size();
  }

  /** Adding a vertex twice leaves one copy. */
  method AddVertexTwice<V(==)>(v: V) returns (order: nat)
    ensures order == 1
  {
    var g := new Graph<V>();
    g.AddVertex(v);
    g.AddVertex(v);
    order := g.Order();
  }
}
