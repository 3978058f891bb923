/** Edge lists of the simplification engine: a directed graph is a sequence of
    `[source, target]` pairs of vertex keys. This module holds the degree and
    neighbour queries and the two list rewrites the kernels are built from. */
module EdgeLists {
  import opened Wrappers

  /** A vertex key. The engine works on numbers; `Undefined` stands for the
      JavaScript value `undefined`, which `next_one`/`prev_one` return when
      there is no matching edge and which can then end up inside an edge. */
  datatype Key = Num(n: int) | Undefined

  /** The edge `[src, dst]`, meaning src -> dst. */
  datatype Edge = Edge(src: Key, dst: Key)

  type Graph = seq<Edge>

  /** The edge between two numeric keys, as the file's literals write it. */
  function E(a: int, b: int): Edge { Edge(Num(a), Num(b)) }

  /** Number of copies of `e` in `g`. */
  function Count(g: Graph, e: Edge): nat { multiset(g)[e] }

  // ---------------------------------------------------------------- queries

  /** `out_edges`: the number of edges whose source is `i`. */
  function OutEdges(i: Key, g: Graph): (n: nat)
    ensures n <= |g|
  {
    if g == [] then 0 else (if g[0].src == i then 1 else 0) + OutEdges(i, g[1..])
  }

  /** `in_edges`: the number of edges whose target is `i`. */
  function InEdges(i: Key, g: Graph): (n: nat)
    ensures n <= |g|
  {
    if g == [] then 0 else (if g[0].dst == i then 1 else 0) + InEdges(i, g[1..])
  }

  /** `next_set`: the targets of the edges leaving `i`, in edge order. */
  function NextSet(i: Key, g: Graph): (r: seq<Key>)
    ensures |r| == OutEdges(i, g)
  {
    if g == [] then []
    else (if g[0].src == i then [g[0].dst] else []) + NextSet(i, g[1..])
  }

  /** `prev_set`: the sources of the edges entering `i`, in edge order. */
  function PrevSet(i: Key, g: Graph): (r: seq<Key>)
    ensures |r| == InEdges(i, g)
  {
    if g == [] then []
    else (if g[0].dst == i then [g[0].src] else []) + PrevSet(i, g[1..])
  }

  /** `next_one`: the target of the first edge leaving `i`, or `Undefined`. */
  function NextOne(i: Key, g: Graph): (r: Key)
    ensures OutEdges(i, g) == 0 ==> r == Undefined
    ensures OutEdges(i, g) > 0 ==> Edge(i, r) in g && r == NextSet(i, g)[0]
  {
    if g == [] then Undefined
    else if g[0].src == i then g[0].dst
    else NextOne(i, g[1..])
  }

  /** `prev_one`: the source of the first edge entering `i`, or `Undefined`. */
  function PrevOne(i: Key, g: Graph): (r: Key)
    ensures InEdges(i, g) == 0 ==> r == Undefined
    ensures InEdges(i, g) > 0 ==> Edge(r, i) in g && r == PrevSet(i, g)[0]
  {
    if g == [] then Undefined
    else if g[0].dst == i then g[0].src
    else PrevOne(i, g[1..])
  }

  /** `next_set(i, g)` holds `k` exactly when the edge `i -> k` is in `g`. */
  lemma {:induction false} NextSetMembers(i: Key, g: Graph, k: Key)
    ensures k in NextSet(i, g) <==> Edge(i, k) in g
  {
    if g != [] {
      NextSetMembers(i, g[1..], k);
      assert g == [g[0]] + g[1..];
    }
  }

  /** `prev_set(i, g)` holds `k` exactly when the edge `k -> i` is in `g`. */
  lemma {:induction false} PrevSetMembers(i: Key, g: Graph, k: Key)
    ensures k in PrevSet(i, g) <==> Edge(k, i) in g
  {
    if g != [] {
      PrevSetMembers(i, g[1..], k);
      assert g == [g[0]] + g[1..];
    }
  }

  /** The fold behind `next_set` visits the edges in order: splitting the
      list splits the result. */
  lemma {:induction false} NextSetConcat(i: Key, a: Graph, b: Graph)
    ensures NextSet(i, a + b) == NextSet(i, a) + NextSet(i, b)
  {
    if a != [] {
      assert (a + b)[0] == a[0];
      assert (a + b)[1..] == a[1..] + b;
      NextSetConcat(i, a[1..], b);
    } else {
      assert a + b == b;
    }
  }

  /** Same for `prev_set`. */
  lemma {:induction false} PrevSetConcat(i: Key, a: Graph, b: Graph)
    ensures PrevSet(i, a + b) == PrevSet(i, a) + PrevSet(i, b)
  {
    if a != [] {
      assert (a + b)[0] == a[0];
      assert (a + b)[1..] == a[1..] + b;
      PrevSetConcat(i, a[1..], b);
    } else {
      assert a + b == b;
    }
  }

  // ---------------------------------------------------------------- rewrites

  /** What `merge_nodes_left` does with one edge: drop `(i, j)`, move an edge
      leaving `j` to leave `i`, copy anything else. */
  function MergeEdge(i: Key, j: Key, e: Edge): seq<Edge>
  {
    if e == Edge(i, j) then []
    else if e.src == j then [Edge(i, e.dst)]
    else [e]
  }

  /** `merge_nodes_left(i, j, graph)`: fuses `j` into `i`. */
  function MergeNodesLeft(i: Key, j: Key, g: Graph): (r: Graph)
    ensures |r| <= |g|
  {
    if g == [] then [] else MergeEdge(i, j, g[0]) + MergeNodesLeft(i, j, g[1..])
  }

  /** `merge_nodes_left(i, j, g)` loses exactly the copies of `i -> j`. */
  lemma {:induction false} MergeNodesLeftLength(i: Key, j: Key, g: Graph)
    ensures |MergeNodesLeft(i, j, g)| == |g| - Count(g, Edge(i, j))
  {
    if g != [] {
      CountsFront(g, Edge(i, j));
      MergeNodesLeftLength(i, j, g[1..]);
    }
  }

  /** The loop of `merge_nodes_left` handles the edges one at a time and in
      order: merging a concatenation merges each part, and a single edge is
      dropped, moved to `i` or copied as `MergeEdge` says. */
  lemma {:induction false} MergeNodesLeftOrder(i: Key, j: Key, a: Graph, b: Graph, e: Edge)
    ensures MergeNodesLeft(i, j, a + b) == MergeNodesLeft(i, j, a) + MergeNodesLeft(i, j, b)
    ensures MergeNodesLeft(i, j, [e]) == MergeEdge(i, j, e)
  {
    if a != [] {
      assert (a + b)[0] == a[0];
      assert (a + b)[1..] == a[1..] + b;
      MergeNodesLeftOrder(i, j, a[1..], b, e);
    } else {
      assert a + b == b;
      assert [e][1..] == [];
      assert MergeNodesLeft(i, j, [e]) == MergeEdge(i, j, e) + [];
    }
  }

  /** Degrees and copy counts of a list split after its first edge. */
  lemma CountsFront(g: Graph, e: Edge)
    requires g != []
    ensures Count(g, e) == (if g[0] == e then 1 else 0) + Count(g[1..], e)
  {
    assert g == [g[0]] + g[1..];
  }

  /** Degrees of a list of at most one edge put in front of another list. */
  lemma DegreesShortFront(k: Key, m: Graph, rest: Graph)
    requires |m| <= 1
    ensures OutEdges(k, m + rest) == OutEdges(k, m) + OutEdges(k, rest)
    ensures InEdges(k, m + rest) == InEdges(k, m) + InEdges(k, rest)
  {
    if m == [] {
      assert m + rest == rest;
    } else {
      assert (m + rest)[1..] == rest;
    }
  }

  /** How `merge_nodes_left(i, j, g)` changes out-degrees: `j` loses all its
      outgoing edges to `i`, the dropped copies of `i -> j` no longer count
      for `i`, and no other vertex changes. */
  lemma {:induction false} MergeNodesLeftOutDegree(i: Key, j: Key, g: Graph, k: Key)
    ensures OutEdges(k, MergeNodesLeft(i, j, g)) ==
            if k == j && i != j then 0
            else if k == i then OutEdges(i, g) - Count(g, Edge(i, j)) + (if i != j then OutEdges(j, g) else 0)
            else OutEdges(k, g)
  {
    if g != [] {
      CountsFront(g, Edge(i, j));
      MergeNodesLeftOutDegree(i, j, g[1..], k);
      DegreesShortFront(k, MergeEdge(i, j, g[0]), MergeNodesLeft(i, j, g[1..]));
    }
  }

  /** How `merge_nodes_left(i, j, g)` changes in-degrees: `j` loses the
      dropped copies of `i -> j`, and no other vertex changes. */
  lemma {:induction false} MergeNodesLeftInDegree(i: Key, j: Key, g: Graph, k: Key)
    ensures InEdges(k, MergeNodesLeft(i, j, g)) ==
            InEdges(k, g) - (if k == j then Count(g, Edge(i, j)) else 0)
  {
    if g != [] {
      CountsFront(g, Edge(i, j));
      MergeNodesLeftInDegree(i, j, g[1..], k);
      DegreesShortFront(k, MergeEdge(i, j, g[0]), MergeNodesLeft(i, j, g[1..]));
    }
  }

  /** What `skip_next_node(i, whole)` does with one edge of `whole`. */
  function SkipEdge(i: Key, e: Edge, whole: Graph): Edge
  {
    if e.src == i then Edge(i, NextOne(e.dst, whole)) else e
  }

  /** The loop of `skip_next_node` over the edges `rest`, looking up
      `next_one` in the unchanged input `whole`. */
  function SkipEach(i: Key, rest: Graph, whole: Graph): (r: Graph)
    ensures |r| == |rest|
    ensures forall k :: 0 <= k < |rest| ==> r[k] == SkipEdge(i, rest[k], whole)
    ensures forall v :: OutEdges(v, r) == OutEdges(v, rest)
  {
    if rest == [] then []
    else [SkipEdge(i, rest[0], whole)] + SkipEach(i, rest[1..], whole)
  }

  /** `skip_next_node(i, graph)`: every edge `(i, k)` becomes
      `(i, next_one(k, graph))`; every other edge is copied. */
  function SkipNextNode(i: Key, g: Graph): (r: Graph)
    ensures |r| == |g|
    ensures forall k :: 0 <= k < |g| && g[k].src != i ==> r[k] == g[k]
    ensures forall k :: 0 <= k < |g| && g[k].src == i ==> r[k] == Edge(i, NextOne(g[k].dst, g))
    ensures forall v :: OutEdges(v, r) == OutEdges(v, g)
  {
    SkipEach(i, g, g)
  }

  // ---------------------------------------------------- index and adjacency

  /** A list in which no key occurs twice. */
  predicate NoDuplicates(s: seq<Key>)
  {
    forall p, q :: 0 <= p < q < |s| ==> s[p] != s[q]
  }

  /** `Array.prototype.indexOf`: the first position of `x`, or -1. */
  function IndexOf(s: seq<Key>, x: Key): (r: int)
    ensures -1 <= r < |s|
    ensures r == -1 <==> x !in s
    ensures r >= 0 ==> s[r] == x && forall k :: 0 <= k < r ==> s[k] != x
  {
    if s == [] then -1
    else if s[0] == x then 0
    else
      var k := IndexOf(s[1..], x);
      if k == -1 then -1 else k + 1
  }

  /** Appending never moves the first occurrence of a key already present,
      and a key that only the appended part holds comes after all of them. */
  lemma {:induction false} IndexOfAppend(a: seq<Key>, b: seq<Key>, x: Key)
    ensures x in a ==> IndexOf(a + b, x) == IndexOf(a, x)
    ensures x !in a && x in b ==> IndexOf(a + b, x) >= |a|
  {
    if a != [] {
      assert (a + b)[0] == a[0];
      assert (a + b)[1..] == a[1..] + b;
      IndexOfAppend(a[1..], b, x);
    } else {
      assert a + b == b;
    }
  }

  /** The keys in the order `create_index` visits them: the source, then the
      target, of each edge in turn. */
  function Endpoints(g: Graph): (r: seq<Key>)
    ensures |r| == 2 * |g|
  {
    if g == [] then [] else Endpoints(g[..|g| - 1]) + [g[|g| - 1].src, g[|g| - 1].dst]
  }

  /** The keys of `s` with every repeat after the first dropped. */
  function FirstOccurrences(s: seq<Key>): (r: seq<Key>)
    ensures |r| <= |s|
  {
    if s == [] then []
    else
      var d := FirstOccurrences(s[..|s| - 1]);
      if s[|s| - 1] in d then d else d + [s[|s| - 1]]
  }

  /** `FirstOccurrences(s)` holds exactly the keys of `s`. */
  lemma {:induction false} FirstOccurrencesMembers(s: seq<Key>)
    ensures forall v :: v in FirstOccurrences(s) <==> v in s
  {
    if s != [] {
      assert s == s[..|s| - 1] + [s[|s| - 1]];
      FirstOccurrencesMembers(s[..|s| - 1]);
    }
  }

  /** `FirstOccurrences(s)` holds no key twice. */
  lemma {:induction false} FirstOccurrencesNoDuplicates(s: seq<Key>)
    ensures NoDuplicates(FirstOccurrences(s))
  {
    if s != [] {
      FirstOccurrencesNoDuplicates(s[..|s| - 1]);
    }
  }

  /** `FirstOccurrences(s)` lists the keys by where they first occur in `s`. */
  lemma {:induction false} FirstOccurrencesOrdered(s: seq<Key>)
    ensures forall p, q :: 0 <= p < q < |FirstOccurrences(s)| ==>
              IndexOf(s, FirstOccurrences(s)[p]) < IndexOf(s, FirstOccurrences(s)[q])
  {
    if s != [] {
      var init, x := s[..|s| - 1], s[|s| - 1];
      assert s == init + [x];
      FirstOccurrencesOrdered(init);
      FirstOccurrencesMembers(init);
      var d := FirstOccurrences(init);
      forall v | v in init
        ensures IndexOf(s, v) == IndexOf(init, v)
      {
        IndexOfAppend(init, [x], v);
      }
      if x !in d {
        IndexOfAppend(init, [x], x);
        assert forall p :: 0 <= p < |d| ==> d[p] in init;
      }
    }
  }

  /** `create_index(graph)`: the endpoints with repeats dropped, in order of
      first appearance. */
  method CreateIndex(graph: Graph) returns (index: seq<Key>)
    ensures index == FirstOccurrences(Endpoints(graph))
  {
    index := [];
    for n := 0 to |graph|
      invariant index == FirstOccurrences(Endpoints(graph[..n]))
    {
      var i, j := graph[n].src, graph[n].dst;
      ghost var before := Endpoints(graph[..n]);
      assert graph[..n + 1][..n] == graph[..n];
      assert Endpoints(graph[..n + 1]) == before + [i, j];
      assert (before + [i, j])[..|before| + 1] == before + [i];
      assert (before + [i])[..|before|] == before;
      if i !in index {
        index := index + [i];
      }
      if j !in index {
        index := index + [j];
      }
    }
    assert graph[..|graph|] == graph;
  }

  /** The matrix entry (r, c) of `adjacency_matrix_with_index` is set when
      some edge's source sits at position r of the index and its target at
      position c. */
  ghost predicate Linked(g: Graph, index: seq<Key>, r: int, c: int)
  {
    exists e :: e in g && IndexOf(index, e.src) == r && IndexOf(index, e.dst) == c
  }

  /** `adjacency_matrix_with_index(graph, index)`: an |index| x |index| zero
      matrix with a 1 for every edge. An edge whose source is not in the index
      makes the source throw (`None`); one whose target is not in the index
      writes to no entry. */
  method AdjacencyMatrixWithIndex(graph: Graph, index: seq<Key>) returns (result: Option<seq<seq<int>>>)
    ensures result.None? <==> exists e :: e in graph && e.src !in index
    ensures result.Some? ==>
              |result.value| == |index| &&
              forall r :: 0 <= r < |index| ==> |result.value[r]| == |index|
    ensures result.Some? ==>
              forall r, c :: 0 <= r < |index| && 0 <= c < |index| ==>
                result.value[r][c] == if Linked(graph, index, r, c) then 1 else 0
  {
    var n := |index|;
    var adjacency: seq<seq<int>> := [];
    for i := 0 to n
      invariant |adjacency| == i
      invariant forall r :: 0 <= r < i ==> adjacency[r] == seq(n, _ => 0)
    {
      adjacency := adjacency + [seq(n, _ => 0)];
    }
    for k := 0 to |graph|
      invariant |adjacency| == n
      invariant forall r :: 0 <= r < n ==> |adjacency[r]| == n
      invariant forall e :: e in graph[..k] ==> e.src in index
      invariant forall r, c :: 0 <= r < n && 0 <= c < n ==>
                  adjacency[r][c] == if Linked(graph[..k], index, r, c) then 1 else 0
    {
      assert graph[..k + 1] == graph[..k] + [graph[k]];
      var row := IndexOf(index, graph[k].src);
      if row == -1 {
        assert graph[k] in graph;
        return None;
      }
      var col := IndexOf(index, graph[k].dst);
      if col >= 0 {
        adjacency := adjacency[row := adjacency[row][col := 1]];
      }
      forall r, c | 0 <= r < n && 0 <= c < n
        ensures Linked(graph[..k + 1], index, r, c) <==>
                Linked(graph[..k], index, r, c) || (r == row && c == col)
      {
        if Linked(graph[..k + 1], index, r, c) {
          var e :| e in graph[..k + 1] && IndexOf(index, e.src) == r && IndexOf(index, e.dst) == c;
          if e != graph[k] {
            assert e in graph[..k];
          }
        }
        if r == row && c == col {
          assert graph[k] in graph[..k + 1];
        }
      }
    }
    assert graph[..|graph|] == graph;
    result := Some(adjacency);
  }
}
