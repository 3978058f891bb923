/** The rewrite kernels of the simplification engine, the fixed-point driver
    `transform_graph`, and the passes built on it. */
module Simplification {
  import opened EdgeLists

  /** The three kernels `transform_graph` is called with. */
  datatype Kernel = SingleNodePath | SingleEdges | Branching

  /** A graph together with the elimination list that goes with it. */
  datatype Step = Step(graph: Graph, eliminated: seq<Key>)

  // ------------------------------------------------------------ the kernels

  /** The guard of each kernel, evaluated on the current graph `g`. */
  predicate Fires(kernel: Kernel, i: Key, j: Key, g: Graph)
  {
    match kernel
    case SingleNodePath => OutEdges(i, g) == 1 && InEdges(j, g) == 1 && OutEdges(j, g) >= 1
    case SingleEdges => OutEdges(i, g) == 1 && OutEdges(j, g) == 1 && InEdges(NextOne(j, g), g) > 1
    case Branching => InEdges(i, g) == 1 && OutEdges(i, g) > 1
  }

  /** `kernel_simplify_single_node_path`: an unbranched link `i -> j` whose
      target is not a dead end is fused into `i`, and `j` is eliminated. */
  function SingleNodePathKernel(i: Key, j: Key, g: Graph, elim: seq<Key>): (s: Step)
    ensures !Fires(SingleNodePath, i, j, g) ==> s == Step(g, elim)
    ensures Fires(SingleNodePath, i, j, g) ==>
              s.eliminated == elim + [j] && s.graph == MergeNodesLeft(i, j, g)
    ensures |s.graph| <= |g|
  {
    if OutEdges(i, g) == 1 && InEdges(j, g) == 1 && OutEdges(j, g) >= 1 then
      Step(MergeNodesLeft(i, j, g), elim + [j])
    else
      Step(g, elim)
  }

  /** `kernel_simplify_single_edges`: when `i` and `j` each have one outgoing
      edge and `j`'s successor is a convergence point, `i` bypasses `j`; `j`
      is added to the elimination list unless it is already there. */
  function SingleEdgesKernel(i: Key, j: Key, g: Graph, elim: seq<Key>): (s: Step)
    ensures !Fires(SingleEdges, i, j, g) ==> s == Step(g, elim)
    ensures Fires(SingleEdges, i, j, g) ==>
              s.graph == SkipNextNode(i, g) &&
              s.eliminated == (if j in elim then elim else elim + [j])
    ensures |s.graph| == |g|
  {
    var next := NextOne(j, g);
    if OutEdges(i, g) == 1 && OutEdges(j, g) == 1 && InEdges(next, g) > 1 then
      Step(SkipNextNode(i, g), if j in elim then elim else elim + [j])
    else
      Step(g, elim)
  }

  /** `kernel_simplify_branching`: a vertex with one incoming and several
      outgoing edges is fused into its unique predecessor and eliminated. */
  function BranchingKernel(i: Key, j: Key, g: Graph, elim: seq<Key>): (s: Step)
    ensures !Fires(Branching, i, j, g) ==> s == Step(g, elim)
    ensures Fires(Branching, i, j, g) ==>
              s.eliminated == elim + [i] && s.graph == MergeNodesLeft(PrevOne(i, g), i, g)
    ensures |s.graph| <= |g|
  {
    if InEdges(i, g) == 1 && OutEdges(i, g) > 1 then
      Step(MergeNodesLeft(PrevOne(i, g), i, g), elim + [i])
    else
      Step(g, elim)
  }

  /** Calls the kernel `transform_graph` was given. */
  function ApplyKernel(kernel: Kernel, i: Key, j: Key, g: Graph, elim: seq<Key>): Step
  {
    match kernel
    case SingleNodePath => SingleNodePathKernel(i, j, g, elim)
    case SingleEdges => SingleEdgesKernel(i, j, g, elim)
    case Branching => BranchingKernel(i, j, g, elim)
  }

  // ------------------------------------------------------------- the driver

  /** One `for (const [i, j] of new_graph)` loop of `transform_graph`: it runs
      over `snapshot`, the array as it was when the loop started, while each
      kernel call sees the current graph `g`; edges whose source is already
      eliminated are skipped. */
  function Sweep(kernel: Kernel, snapshot: Graph, g: Graph, elim: seq<Key>): (s: Step)
    ensures |s.graph| <= |g|
    ensures elim <= s.eliminated
  {
    if snapshot == [] then Step(g, elim)
    else
      var i := snapshot[0].src;
      var next := if i in elim then Step(g, elim) else ApplyKernel(kernel, i, snapshot[0].dst, g, elim);
      Sweep(kernel, snapshot[1..], next.graph, next.eliminated)
  }

  /** `transform_graph`: sweep until a sweep leaves the edge count unchanged,
      then sweep once more. */
  function Transform(kernel: Kernel, g: Graph, elim: seq<Key>): (s: Step)
    ensures |s.graph| <= |g|
    ensures elim <= s.eliminated
    decreases |g|
  {
    var p := Sweep(kernel, g, g, elim);
    if |p.graph| == |g| then Sweep(kernel, p.graph, p.graph, p.eliminated)
    else Transform(kernel, p.graph, p.eliminated)
  }

  /** A sweep that meets no edge on which its kernel fires (every edge is
      either skipped or fails the guard) changes neither the graph nor the
      elimination list. */
  lemma {:induction false} SweepQuiet(kernel: Kernel, snapshot: Graph, g: Graph, elim: seq<Key>)
    requires forall e :: e in snapshot ==> e.src in elim || !Fires(kernel, e.src, e.dst, g)
    ensures Sweep(kernel, snapshot, g, elim) == Step(g, elim)
  {
    if snapshot != [] {
      assert snapshot[0] in snapshot;
      assert forall e :: e in snapshot[1..] ==> e in snapshot;
      SweepQuiet(kernel, snapshot[1..], g, elim);
    }
  }

  /** The single-edges kernel never puts a key on the list twice, so neither
      does a sweep with it. */
  lemma {:induction false} SweepSingleEdgesNoDuplicates(snapshot: Graph, g: Graph, elim: seq<Key>)
    requires NoDuplicates(elim)
    ensures NoDuplicates(Sweep(SingleEdges, snapshot, g, elim).eliminated)
  {
    if snapshot != [] {
      var i := snapshot[0].src;
      var next := if i in elim then Step(g, elim)
                  else SingleEdgesKernel(i, snapshot[0].dst, g, elim);
      assert NoDuplicates(next.eliminated);
      SweepSingleEdgesNoDuplicates(snapshot[1..], next.graph, next.eliminated);
    }
  }

  /** Hence `transform_graph` with the single-edges kernel keeps the
      elimination list free of duplicates. */
  lemma {:induction false} TransformSingleEdgesNoDuplicates(g: Graph, elim: seq<Key>)
    requires NoDuplicates(elim)
    ensures NoDuplicates(Transform(SingleEdges, g, elim).eliminated)
    decreases |g|
  {
    var p := Sweep(SingleEdges, g, g, elim);
    SweepSingleEdgesNoDuplicates(g, g, elim);
    if |p.graph| == |g| {
      SweepSingleEdgesNoDuplicates(p.graph, p.graph, p.eliminated);
    } else {
      TransformSingleEdgesNoDuplicates(p.graph, p.eliminated);
    }
  }

  // ------------------------------------------------------------- the passes

  /** One `filter` of `simplify_single_edges`: drops every edge touching `v`. */
  function Untouching(g: Graph, v: Key): (r: Graph)
    ensures |r| <= |g|
  {
    if g == [] then []
    else (if g[0].src == v || g[0].dst == v then [] else [g[0]]) + Untouching(g[1..], v)
  }

  /** The loop of `simplify_single_edges` that filters out, one eliminated
      key after the other, the edges touching it. */
  function RemoveEliminated(g: Graph, elim: seq<Key>): (r: Graph)
    decreases |elim|
  {
    if elim == [] then g else RemoveEliminated(Untouching(g, elim[0]), elim[1..])
  }

  /** Reference definition: one filter keeping exactly the edges with no
      endpoint in `elim`, in their original order. */
  function Clean(g: Graph, elim: seq<Key>): (r: Graph)
    ensures forall e :: e in r <==> e in g && e.src !in elim && e.dst !in elim
  {
    if g == [] then []
    else
      assert forall e :: e in g <==> e == g[0] || e in g[1..];
      (if g[0].src in elim || g[0].dst in elim then [] else [g[0]]) + Clean(g[1..], elim)
  }

  lemma {:induction false} CleanUntouching(g: Graph, v: Key, rest: seq<Key>)
    ensures Clean(Untouching(g, v), rest) == Clean(g, [v] + rest)
  {
    if g != [] {
      CleanUntouching(g[1..], v, rest);
      var h := if g[0].src == v || g[0].dst == v then [] else [g[0]];
      CleanConcat(h, Untouching(g[1..], v), rest);
    }
  }

  lemma {:induction false} CleanConcat(a: Graph, b: Graph, elim: seq<Key>)
    ensures Clean(a + b, elim) == Clean(a, elim) + Clean(b, elim)
  {
    if a == [] {
      assert a + b == b;
    } else {
      assert (a + b)[0] == a[0];
      assert (a + b)[1..] == a[1..] + b;
      CleanConcat(a[1..], b, elim);
    }
  }

  /** Filtering key by key is the same as one filter against the whole list:
      the result keeps exactly the edges touching no eliminated key, in order. */
  lemma {:induction false} RemoveEliminatedIsClean(g: Graph, elim: seq<Key>)
    ensures RemoveEliminated(g, elim) == Clean(g, elim)
    decreases |elim|
  {
    if elim == [] {
      CleanNothing(g);
    } else {
      RemoveEliminatedIsClean(Untouching(g, elim[0]), elim[1..]);
      CleanUntouching(g, elim[0], elim[1..]);
      assert [elim[0]] + elim[1..] == elim;
    }
  }

  lemma {:induction false} CleanNothing(g: Graph)
    ensures Clean(g, []) == g
  {
    if g != [] {
      CleanNothing(g[1..]);
      assert g == [g[0]] + g[1..];
    }
  }

  /** `simplify_single_edges(graph, eliminated)`: the single-edges transform,
      then removal of every edge touching an eliminated key. */
  function SingleEdgesPass(g: Graph, elim: seq<Key>): (s: Step)
    ensures forall e :: e in s.graph ==> e.src !in s.eliminated && e.dst !in s.eliminated
    ensures elim <= s.eliminated
    ensures |s.graph| <= |g|
  {
    var t := Transform(SingleEdges, g, elim);
    RemoveEliminatedIsClean(t.graph, t.eliminated);
    CleanShrinks(t.graph, t.eliminated);
    Step(RemoveEliminated(t.graph, t.eliminated), t.eliminated)
  }

  lemma {:induction false} CleanShrinks(g: Graph, elim: seq<Key>)
    ensures |Clean(g, elim)| <= |g|
  {
    if g != [] {
      CleanShrinks(g[1..], elim);
    }
  }

  /** `simplify_graph`: single-node paths, then single edges, then branching,
      each pass with a fresh, empty elimination list. */
  function SimplifiedGraph(g: Graph): (r: Graph)
    ensures |r| <= |g|
  {
    var paths := Transform(SingleNodePath, g, []).graph;
    var edges := SingleEdgesPass(paths, []).graph;
    Transform(Branching, edges, []).graph
  }

  // ---------------------------------------------------- the imperative driver

  /** The `eliminated_nodes` array shared by `transform_graph` and the kernels
      it calls; the kernels push onto it in place. */
  class EliminationList {
    var nodes: seq<Key>

    constructor ()
      ensures nodes == []
    {
      nodes := [];
    }

    method ApplySingleNodePath(i: Key, j: Key, graph: Graph) returns (newGraph: Graph)
      modifies this
      ensures Step(newGraph, nodes) == SingleNodePathKernel(i, j, graph, old(nodes))
    {
      newGraph := graph;
      if OutEdges(i, newGraph) == 1 && InEdges(j, newGraph) == 1 && OutEdges(j, newGraph) >= 1 {
        nodes := nodes + [j];
        newGraph := MergeNodesLeft(i, j, newGraph);
      }
    }

    method ApplySingleEdges(i: Key, j: Key, graph: Graph) returns (newGraph: Graph)
      modifies this
      ensures Step(newGraph, nodes) == SingleEdgesKernel(i, j, graph, old(nodes))
    {
      newGraph := graph;
      var next := NextOne(j, newGraph);
      if OutEdges(i, newGraph) == 1 && OutEdges(j, newGraph) == 1 && InEdges(next, newGraph) > 1 {
        if j !in nodes {
          nodes := nodes + [j];
        }
        newGraph := SkipNextNode(i, newGraph);
      }
    }

    method ApplyBranching(i: Key, j: Key, graph: Graph) returns (newGraph: Graph)
      modifies this
      ensures Step(newGraph, nodes) == BranchingKernel(i, j, graph, old(nodes))
    {
      newGraph := graph;
      if InEdges(i, newGraph) == 1 && OutEdges(i, newGraph) > 1 {
        nodes := nodes + [i];
        newGraph := MergeNodesLeft(PrevOne(i, newGraph), i, newGraph);
      }
    }

    method Apply(kernel: Kernel, i: Key, j: Key, graph: Graph) returns (newGraph: Graph)
      modifies this
      ensures Step(newGraph, nodes) == ApplyKernel(kernel, i, j, graph, old(nodes))
    {
      match kernel
      case SingleNodePath => newGraph := ApplySingleNodePath(i, j, graph);
      case SingleEdges => newGraph := ApplySingleEdges(i, j, graph);
      case Branching => newGraph := ApplyBranching(i, j, graph);
    }

    /** One `for (const [i, j] of new_graph)` loop: iterates over `graph` as
        it was on entry while `newGraph` is rewritten. */
    method SweepOnce(kernel: Kernel, graph: Graph) returns (newGraph: Graph)
      modifies this
      ensures Step(newGraph, nodes) == Sweep(kernel, graph, graph, old(nodes))
    {
      newGraph := graph;
      for n := 0 to |graph|
        invariant Sweep(kernel, graph[n..], newGraph, nodes) == Sweep(kernel, graph, graph, old(nodes))
      {
        assert graph[n..][1..] == graph[n + 1..];
        var i := graph[n].src;
        var j := graph[n].dst;
        if i in nodes {
          continue;
        }
        newGraph := Apply(kernel, i, j, newGraph);
      }
    }

    /** `transform_graph(kernel, graph, eliminated_nodes)`. */
    method TransformGraph(kernel: Kernel, graph: Graph) returns (newGraph: Graph)
      modifies this
      ensures Step(newGraph, nodes) == Transform(kernel, graph, old(nodes))
    {
      var tempGraph := graph;
      newGraph := tempGraph;
      ghost var tempNodes := nodes;
      while true
        invariant Transform(kernel, newGraph, nodes) == Transform(kernel, graph, old(nodes))
        decreases |newGraph|
      {
        tempGraph := newGraph;
        tempNodes := nodes;
        newGraph := SweepOnce(kernel, newGraph);
        if |tempGraph| == |newGraph| {
          break;
        }
      }
      assert Transform(kernel, tempGraph, tempNodes) == Sweep(kernel, newGraph, newGraph, nodes);
      newGraph := SweepOnce(kernel, newGraph);
    }
  }

  /** `simplify_single_node_paths(graph, eliminated_nodes)`; a `null` list
      stands for the omitted argument, which gets a fresh empty list. */
  method SimplifySingleNodePaths(graph: Graph, eliminated: EliminationList?) returns (r: Graph)
    modifies eliminated
    ensures eliminated != null ==>
              Step(r, eliminated.nodes) == Transform(SingleNodePath, graph, old(eliminated.nodes))
    ensures eliminated == null ==> r == Transform(SingleNodePath, graph, []).graph
  {
    var list: EliminationList;
    if eliminated == null {
      list := new EliminationList();
    } else {
      list := eliminated;
    }
    r := list.TransformGraph(SingleNodePath, graph);
  }

  /** `simplify_single_edges(graph, eliminated_nodes)`. */
  method SimplifySingleEdges(graph: Graph, eliminated: EliminationList?) returns (simplified: Graph)
    modifies eliminated
    ensures eliminated != null ==>
              Step(simplified, eliminated.nodes) == SingleEdgesPass(graph, old(eliminated.nodes))
    ensures eliminated == null ==> simplified == SingleEdgesPass(graph, []).graph
  {
    var list: EliminationList;
    if eliminated == null {
      list := new EliminationList();
    } else {
      list := eliminated;
    }
    simplified := list.TransformGraph(SingleEdges, graph);
    ghost var transformed := simplified;
    for n := 0 to |list.nodes|
      invariant RemoveEliminated(simplified, list.nodes[n..]) == RemoveEliminated(transformed, list.nodes)
    {
      assert list.nodes[n..][1..] == list.nodes[n + 1..];
      simplified := Untouching(simplified, list.nodes[n]);
    }
  }

  /** `simplify_branching(graph, eliminated_nodes)`. */
  method SimplifyBranching(graph: Graph, eliminated: EliminationList?) returns (r: Graph)
    modifies eliminated
    ensures eliminated != null ==>
              Step(r, eliminated.nodes) == Transform(Branching, graph, old(eliminated.nodes))
    ensures eliminated == null ==> r == Transform(Branching, graph, []).graph
  {
    var list: EliminationList;
    if eliminated == null {
      list := new EliminationList();
    } else {
      list := eliminated;
    }
    r := list.TransformGraph(Branching, graph);
  }

  /** `simplify_graph(graph)`. */
  method SimplifyGraph(graph: Graph) returns (newGraph: Graph)
    ensures newGraph == SimplifiedGraph(graph)
    ensures |newGraph| <= |graph|
  {
    newGraph := graph;
    newGraph := SimplifySingleNodePaths(newGraph, null);
    newGraph := SimplifySingleEdges(newGraph, null);
    newGraph := SimplifyBranching(newGraph, null);
  }
}
