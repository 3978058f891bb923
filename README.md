# graphlib, modelled in Dafny

This project models the core of graphlib, a small TypeScript library of graphs and integer matrices, and its draft edge-list simplification engine. It has six parts:

- **The simplification engine.** This is the draft script `drafts/graph-algorithms.js`, modelled in `edge_lists.dfy`, `simplification.dfy` and `engine_examples.dfy`.
  - A directed graph is a list of `[source, target]` pairs.
  - The engine has degree and neighbour queries, the two list rewrites `merge_nodes_left` and `skip_next_node`, and three rewrite kernels.
  - The fixed-point driver `transform_graph` runs the kernels. The three passes and `simplify_graph` are built on it.
  - Two more functions build a vertex index and an adjacency matrix over it.
- **The Dedekind cut** (`dedekind.dfy`). A sequence `S` with a cut index, a lower view `L`, an upper view `U` and setters for both views.
- **Edge classes** (`edges.dfy`). Undirected and directed edges over a two-element vertex array, undirected and directed hyperedges, and the conversions between them.
- **The graph container** (`graph.dfy`). The mixins are flattened into one class. It has a duplicate-free vertex list, append-only edge lists, append-only roots, and `order` and `size`.
- **Matrix shapes** (`shape.dfy`). A kind tag (square, row, column or general) with one validity rule per kind, `transpose`, and the first-match classifier `match`.
- **Integer matrices** (`matrix_spec.dfy` and `matrix.dfy`).
  - `matrix_spec.dfy` holds specification functions on `seq<seq<int>>`.
  - `matrix.dfy` holds a `Matrix` class whose methods fill fresh matrices with loops: `transpose`, `add`, `sub`, `mult`, `pow` and the identity constructor. `trace` is a fold.

JavaScript `throw` becomes `Err(message)` of the `Result` type in `wrappers.dfy`, with the source's message text. JavaScript `undefined`, used as a vertex, becomes the `Undefined` key.

The engine works as follows:
- **Pure functions.** The queries and list rewrites are pure functions.
- **Kernels.** Each kernel is a pure function that returns a `Step`, the new graph together with the new elimination list. The class `EliminationList` holds the shared `eliminated_nodes` array. Its methods push onto that array in place, as the kernels do, and are proved equal to the pure kernels.
- **Driver.** `transform_graph` is a `while` loop around a `for` loop. The `for` loop iterates over the array as it was when the loop began, while each kernel call sees the current graph. The edge count is the termination measure.

`next_one` and `prev_one` are called by the engine but not defined in its file. Here they are the target (respectively source) of the first edge, in list order, leaving (respectively entering) the given vertex. They give `Undefined` when there is no such edge. That matches the comment at `drafts/graph-algorithms.js:353`.

## Model

| member | source | states |
|---|---|---|
| EdgeLists.OutEdges | drafts/graph-algorithms.js:196-203 | the out-degree of `i` counts edges with source `i`, never more than the edge count |
| EdgeLists.InEdges | drafts/graph-algorithms.js:212-219 | the in-degree of `i` counts edges with target `i`, never more than the edge count |
| EdgeLists.NextSet | drafts/graph-algorithms.js:164-171 | the successor list of `i` has exactly as many entries as `i` has outgoing edges |
| EdgeLists.PrevSet | drafts/graph-algorithms.js:180-187 | the predecessor list of `i` has exactly as many entries as `i` has incoming edges |
| EdgeLists.NextSetMembers | drafts/graph-algorithms.js:164-171 | `k` is a successor of `i` if and only if the edge `(i,k)` is in the graph |
| EdgeLists.PrevSetMembers | drafts/graph-algorithms.js:180-187 | `k` is a predecessor of `i` if and only if the edge `(k,i)` is in the graph |
| EdgeLists.NextSetConcat | drafts/graph-algorithms.js:164-171 | successors are listed in edge order: the successors in `a + b` are those in `a` followed by those in `b` |
| EdgeLists.PrevSetConcat | drafts/graph-algorithms.js:180-187 | predecessors are listed in edge order, as for successors |
| EdgeLists.NextOne | drafts/graph-algorithms.js:274 | `next_one(i)` is `Undefined` when `i` has no outgoing edge; otherwise it is the first successor, and `(i, next_one(i))` is an edge |
| EdgeLists.PrevOne | drafts/graph-algorithms.js:371 | `prev_one(i)` is `Undefined` when `i` has no incoming edge; otherwise it is the first predecessor, and `(prev_one(i), i)` is an edge |
| EdgeLists.MergeNodesLeft | drafts/graph-algorithms.js:233-252 | merging never adds edges |
| EdgeLists.MergeNodesLeftLength | drafts/graph-algorithms.js:233-252 | the result has the input's length minus the number of copies of `(i,j)` |
| EdgeLists.MergeNodesLeftOrder | drafts/graph-algorithms.js:233-252 | the merge works edge by edge and keeps order: `(i,j)` is dropped, another edge from `j` gets source `i`, any other edge is copied |
| EdgeLists.MergeNodesLeftOutDegree | drafts/graph-algorithms.js:233-252 | after the merge `j` (when distinct from `i`) has no outgoing edge, `i` gains `j`'s outgoing edges less the dropped `(i,j)` copies, and every other vertex keeps its out-degree |
| EdgeLists.MergeNodesLeftInDegree | drafts/graph-algorithms.js:233-252 | in-degrees are unchanged, except that `j` loses one per dropped `(i,j)` copy |
| EdgeLists.SkipEach | drafts/graph-algorithms.js:270-280 | the loop of `skip_next_node` maps every edge independently and keeps every out-degree |
| EdgeLists.SkipNextNode | drafts/graph-algorithms.js:267-283 | same length and order; edges not leaving `i` are unchanged; an edge `(i,k)` becomes `(i, next_one(k))`, where `next_one` is computed on the input graph; every out-degree is kept |
| EdgeLists.IndexOf | drafts/graph-algorithms.js:113-114 | `indexOf` gives -1 exactly when the key is absent, and otherwise the position of its first occurrence |
| EdgeLists.IndexOfAppend | drafts/graph-algorithms.js:113-114 | appending to a list does not move the first occurrence of a key already present |
| EdgeLists.FirstOccurrencesMembers | drafts/graph-algorithms.js:110-117 | the index holds exactly the keys that occur as endpoints |
| EdgeLists.FirstOccurrencesNoDuplicates | drafts/graph-algorithms.js:110-117 | the index holds each key once |
| EdgeLists.FirstOccurrencesOrdered | drafts/graph-algorithms.js:110-117 | the index lists keys in order of first appearance among the endpoints |
| EdgeLists.CreateIndex | drafts/graph-algorithms.js:110-117 | the loop builds the first occurrences of the endpoints, sources before targets, edge by edge |
| EdgeLists.AdjacencyMatrixWithIndex | drafts/graph-algorithms.js:141-155 | there is no result exactly when some edge's source is missing from the index (JavaScript would index `undefined`); otherwise the matrix is n×n for an index of length n, and an entry is 1 exactly when some edge's endpoints have those first positions in the index, and 0 elsewhere |
| Simplification.SingleNodePathKernel | drafts/graph-algorithms.js:321-337 | without its guard (`out(i)=1`, `in(j)=1`, `out(j)≥1`) nothing changes; with it `j` is appended to the list and merged into `i`; never adds edges |
| Simplification.SingleEdgesKernel | drafts/graph-algorithms.js:339-358 | without its guard (`out(i)=1`, `out(j)=1`, `in(next_one(j))>1`) nothing changes; with it `i` skips its successor and `j` is appended unless already listed; edge count kept |
| Simplification.BranchingKernel | drafts/graph-algorithms.js:360-375 | without its guard (`in(i)=1`, `out(i)>1`) nothing changes; with it `i` is appended and merged into its predecessor; never adds edges |
| Simplification.Sweep | drafts/graph-algorithms.js:300-305 | a sweep never adds edges and only appends to the elimination list |
| Simplification.Transform | drafts/graph-algorithms.js:293-319 | the driver never adds edges and only appends to the elimination list |
| Simplification.SweepQuiet | drafts/graph-algorithms.js:300-305 | a sweep in which every edge is skipped or fails the guard changes neither the graph nor the list |
| Simplification.SweepSingleEdgesNoDuplicates | drafts/graph-algorithms.js:349-351 | a sweep with the single-edges kernel keeps a duplicate-free list duplicate-free |
| Simplification.TransformSingleEdgesNoDuplicates | drafts/graph-algorithms.js:349-351 | so does the whole driver with that kernel |
| Simplification.Untouching | drafts/graph-algorithms.js:407 | one filter only removes edges |
| Simplification.Clean | drafts/graph-algorithms.js:406-408 | reference filter: an edge is kept exactly when it is in the graph and neither endpoint is eliminated |
| Simplification.RemoveEliminatedIsClean | drafts/graph-algorithms.js:406-408 | filtering key by key, as the loop does, equals the single reference filter |
| Simplification.SingleEdgesPass | drafts/graph-algorithms.js:403-410 | no edge of the result touches an eliminated key, the list only grows, and no edge is added |
| Simplification.SimplifiedGraph | drafts/graph-algorithms.js:441-451 | the pipeline never adds edges |
| Simplification.EliminationList.constructor | drafts/graph-algorithms.js:294 | a missing list is a fresh empty one |
| Simplification.EliminationList.ApplySingleNodePath | drafts/graph-algorithms.js:321-337 | the in-place push and the new graph agree with the pure kernel |
| Simplification.EliminationList.ApplySingleEdges | drafts/graph-algorithms.js:339-358 | the in-place push (skipped for a listed key) and the new graph agree with the pure kernel |
| Simplification.EliminationList.ApplyBranching | drafts/graph-algorithms.js:360-375 | the in-place push and the new graph agree with the pure kernel |
| Simplification.EliminationList.Apply | drafts/graph-algorithms.js:303 | calling the kernel argument is the kernel chosen |
| Simplification.EliminationList.SweepOnce | drafts/graph-algorithms.js:300-305 | the `for` loop over the snapshot, skipping eliminated sources, equals the sweep |
| Simplification.EliminationList.TransformGraph | drafts/graph-algorithms.js:293-319 | the do-while plus the extra pass produce the graph and list of the reference driver |
| Simplification.SimplifySingleNodePaths | drafts/graph-algorithms.js:388-391 | the pass is the driver with the single-node-path kernel, on the given list or a fresh one |
| Simplification.SimplifySingleEdges | drafts/graph-algorithms.js:403-410 | the pass is the single-edges driver followed by the filtering loop, on the given list or a fresh one |
| Simplification.SimplifyBranching | drafts/graph-algorithms.js:421-424 | the pass is the driver with the branching kernel, on the given list or a fresh one |
| Simplification.SimplifyGraph | drafts/graph-algorithms.js:441-451 | the three passes, each with a fresh list, give the reference pipeline and never add edges |
| EngineExamples.MergeExample | drafts/graph-algorithms.js:553-554 | merging 2 into 1 in G1 gives G2 |
| EngineExamples.SkipExample | drafts/graph-algorithms.js:556-557 | skipping the successor of 1 in G3 gives G4 |
| EngineExamples.SingleNodePathsOnLine | drafts/graph-algorithms.js:559 | the single-node-path pass turns the line 1→2→3→4→5 into the one edge 1→5, eliminating 2, 4 and 3 |
| Dedekind.DedekindCompletion.constructor | src/graph/dedekind.ts:13-19 | a new cut is over the empty sequence at 0 |
| Dedekind.DedekindCompletion.L | src/graph/dedekind.ts:24-26 | the lower view is the prefix of length `cut` |
| Dedekind.DedekindCompletion.U | src/graph/dedekind.ts:39-41 | the upper view is the suffix from `cut` |
| Dedekind.DedekindCompletion.Cardinality | src/graph/dedekind.ts:50-52 | the cardinality is the size of the lower view plus the size of the upper view |
| Dedekind.DedekindCompletion.OneSided | src/graph/dedekind.ts:54-56 | one-sided exactly when one of the two views is empty |
| Dedekind.DedekindCompletion.SetL | src/graph/dedekind.ts:31-34 | `S` becomes the new lower part followed by the old upper view, and `cut` its length; both views read back |
| Dedekind.DedekindCompletion.SetU | src/graph/dedekind.ts:46-48 | the suffix from `cut` is replaced; the lower view and `cut` are kept |
| Dedekind.ViewsJoin | src/graph/dedekind.ts:24-41 | the lower view followed by the upper view is `S` |
| Dedekind.CutExample | test/graph/dedekind.spec.ts:4-11 | cutting `abcd` at 2 gives views `ab` and `cd`, not one-sided |
| Dedekind.SetLowerExample | test/graph/dedekind.spec.ts:13-23 | setting the lower view to `efg` gives `efgcd` with cut 3 |
| Dedekind.SetUpperExample | test/graph/dedekind.spec.ts:25-36 | setting the upper view to `efg` gives `abefg` with cut 2 and cardinality 5 |
| Dedekind.OneSidedExample | test/graph/dedekind.spec.ts:38-45 | a cut at either end is one-sided |
| Edges.Undirected.constructor | src/graph/edge.ts:65-68 | the edge keeps the caller's pair array itself |
| Edges.Undirected.SetX | src/graph/edge.ts:74-76 | only position 0 changes |
| Edges.Undirected.SetY | src/graph/edge.ts:82-84 | only position 1 changes |
| Edges.Undirected.ToRight | src/graph/edge.ts:89-91 | a fresh directed edge with head `x` and tail `y` |
| Edges.Undirected.ToLeft | src/graph/edge.ts:96-98 | a fresh directed edge with head `y` and tail `x` |
| Edges.Undirected.ToRightHyperedge | src/graph/edge.ts:103-105 | a fresh directed hyperedge `[x]` → `[y]` of size 2 |
| Edges.Undirected.ToLeftHyperedge | src/graph/edge.ts:110-112 | a fresh directed hyperedge `[y]` → `[x]` of size 2 |
| Edges.Undirected.ToUndirectedHyperedge | src/graph/edge.ts:117-119 | a fresh hyperedge over `[x, y]`, of size 2 |
| Edges.Directed.constructor | src/graph/edge.ts:127-130 | the edge keeps the caller's pair array itself |
| Edges.Directed.SetH | src/graph/edge.ts:136-138 | only the head changes |
| Edges.Directed.SetT | src/graph/edge.ts:144-146 | only the tail changes |
| Edges.Directed.ToDirectedHyperedge | src/graph/edge.ts:151-153 | a fresh directed hyperedge `[h]` → `[t]` of size 2 |
| Edges.Directed.ToUndirected | src/graph/edge.ts:158-160 | a fresh undirected edge with `x = h` and `y = t` |
| Edges.UndirectedHyperedge.constructor | src/graph/edge.ts:167-170 | the hyperedge keeps the caller's vertex array |
| Edges.UndirectedHyperedge.Size | src/graph/edge.ts:172-174 | the size is the number of vertices |
| Edges.DirectedHyperedge.constructor | src/graph/edge.ts:190-193 | head and tail are the caller's arrays |
| Edges.DirectedHyperedge.SetH | src/graph/edge.ts:199-201 | only the head set is replaced |
| Edges.DirectedHyperedge.SetT | src/graph/edge.ts:207-209 | only the tail set is replaced |
| Edges.DirectedHyperedge.Size | src/graph/edge.ts:211-213 | the size is the head count plus the tail count |
| Edges.DirectedRoundTrip | src/graph/edge.ts:89-91 | converting a directed edge to undirected and back restores head and tail in a new edge |
| Edges.UndirectedRoundTrip | src/graph/edge.ts:158-160 | converting an undirected edge to directed and back restores `x` and `y` in a new edge |
| Edges.ConversionIsolated | src/graph/edge.ts:89-91 | changing a converted edge leaves the original untouched |
| Graphs.DistinctCount | src/graph/graph.ts:143-157 | a duplicate-free list has as many elements as its set |
| Graphs.Graph.constructor | src/graph/graph.ts:135-138 | a new graph has empty vertex, edge and root lists |
| Graphs.Graph.AddVertex | src/graph/graph.ts:143-149 | a present vertex changes nothing; an absent one is appended; no duplicates arise; other lists unchanged |
| Graphs.Graph.Order | src/graph/graph.ts:155-157 | the order is the number of distinct vertices |
| Graphs.Graph.AddUndirected | src/graph/graph.ts:177-180 | exactly one edge is appended; all else unchanged |
| Graphs.Graph.AddUndirecteds | src/graph/graph.ts:185-189 | all given edges are appended in order; all else unchanged |
| Graphs.Graph.HasUndirected | src/graph/graph.ts:194-196 | true exactly when some undirected edge is held |
| Graphs.Graph.AddDirected | src/graph/graph.ts:216-219 | exactly one edge is appended; all else unchanged |
| Graphs.Graph.AddDirecteds | src/graph/graph.ts:224-228 | all given edges are appended in order; all else unchanged |
| Graphs.Graph.HasDirected | src/graph/graph.ts:233-235 | true exactly when some directed edge is held |
| Graphs.Graph.AddRoot | src/graph/graph.ts:263-265 | the root is appended with no membership check; all else unchanged |
| Graphs.Graph.SizeAsWritten | src/graph/graph.ts:97-121 | `size` as written is always 0 |
| Graphs.Graph.Size | src/graph/graph.ts:114-121 | corrected `size`: the number of edges, undirected plus directed (the flattened graph holds no hyperedge lists); so 0 exactly when there are no edges |
| Graphs.SizeAsWrittenMissesEdges | src/graph/graph.ts:97-121 | with any edge present, `size` as written differs from the edge count |
| Graphs.SizeExample | src/graph/graph.ts:97-121 | after adding one edge to an empty graph, `size` as written is 0 and the corrected one is 1 |
| Graphs.AddVertexTwice | src/graph/graph.ts:143-157 | adding the same vertex twice gives order 1 |
| Shapes.NewShape | src/matrix/shape.ts:6-14 | construction succeeds exactly when the kind's own rule accepts the dimensions; otherwise it fails with the shape message |
| Shapes.Transpose | src/matrix/shape.ts:16-18 | dimensions swap; rows and columns swap kinds, square stays square |
| Shapes.TransposeTwice | src/matrix/shape.ts:43-45 | transposing twice gives the original shape back |
| Shapes.FirstAccepting | src/matrix/shape.ts:23-30 | the first candidate kind that accepts, or -1 when none does |
| Shapes.Match | src/matrix/shape.ts:20-32 | `match` fails exactly when a dimension is not positive, and keeps the dimensions |
| Shapes.MatchKind | src/matrix/shape.ts:20-32 | the matched kind is square if rows equal cols, else row if rows is 1, else column if cols is 1, else general |
| MatrixSpec.Zero | src/matrix/matrix.ts:10-18 | a `rows`×`cols` matrix of zeros |
| MatrixSpec.Transposed | src/matrix/matrix.ts:45-55 | the transpose is `cols`×`rows` with `t[i][j] = m[j][i]` |
| MatrixSpec.Sum | src/matrix/matrix.ts:79-83 | the entrywise sum |
| MatrixSpec.Difference | src/matrix/matrix.ts:98-102 | the entrywise difference |
| MatrixSpec.AddSubCancels | src/matrix/matrix.ts:75-108 | adding `b` then subtracting `b` gives the first matrix back |
| MatrixSpec.Product | src/matrix/matrix.ts:119-125 | each entry is the dot product of a row and a column |
| MatrixSpec.Identity | src/matrix/matrix.ts:149-158 | 1 on the diagonal within both dimensions, 0 elsewhere |
| MatrixSpec.IdentityNeutral | src/matrix/matrix.ts:149-158 | the identity is neutral on either side of a square product |
| MatrixSpec.DiagonalSumTransposed | src/matrix/matrix.ts:60-70 | transposing keeps the trace |
| MatrixSpec.DiagonalSumIdentity | src/matrix/matrix.ts:149-158 | the trace of the `n`×`n` identity is `n` |
| MatrixSpec.Power | src/matrix/matrix.ts:136-142 | the `e`-th power of a square matrix is square of the same size |
| Matrices.Matrix.constructor | src/matrix/matrix.ts:10-18 | a new matrix is all zeros in its shape |
| Matrices.Matrix.Identity | src/matrix/matrix.ts:149-158 | the identity matrix of a shape |
| Matrices.Matrix.SetData | src/matrix/matrix.ts:37-40 | the data are replaced and the shape is kept |
| Matrices.Matrix.Transpose | src/matrix/matrix.ts:45-55 | a fresh matrix with the transposed shape and transposed entries |
| Matrices.Matrix.Trace | src/matrix/matrix.ts:60-70 | the diagonal sum when the kind is square, decided by the kind and not by the dimensions; otherwise the trace error |
| Matrices.DiagonalFoldSum | src/matrix/matrix.ts:63-65 | the `reduce` fold over the rows computes the diagonal sum |
| Matrices.Matrix.Add | src/matrix/matrix.ts:75-89 | fails with the size message exactly when dimensions differ; otherwise a fresh matrix of the first shape holding the sum |
| Matrices.Matrix.Sub | src/matrix/matrix.ts:94-108 | fails with the size message exactly when dimensions differ; otherwise a fresh matrix holding the difference |
| Matrices.Matrix.Mult | src/matrix/matrix.ts:113-131 | succeeds exactly when the result dimensions are positive and the inner dimensions agree; the shape is the match of the result dimensions; the data are the product; the failure message says which check failed |
| Matrices.Matrix.Pow | src/matrix/matrix.ts:136-142 | the first power is the matrix itself; a higher power fails exactly when the matrix is not square with positive size, and otherwise holds the repeated product |
| MatrixExamples.TriangleSquare | test/matrix/matrix.spec.ts:104-113 | the square of the triangle's adjacency matrix |
| MatrixExamples.TriangleCube | test/matrix/matrix.spec.ts:104-113 | the cube of the triangle's adjacency matrix |
| MatrixExamples.TriangleTrace | test/matrix/matrix.spec.ts:104-113 | the trace of that cube is 6, so one triangle |
| MatrixExamples.RowExamples | test/matrix/matrix.spec.ts:67-71 | a 1×4 row transposes to the 4×1 column, and a power of it fails with the product message |
| MatrixExamples.MismatchExamples | test/matrix/matrix.spec.ts:79-92 | adding a 4×1 column to a 3×3 matrix, or multiplying the two, fails with the source's messages |
| MatrixExamples.NeutralExamples | test/matrix/matrix.spec.ts:94-100 | multiplying by the identity on either side, or adding then subtracting a matrix, gives the matrix back |

## Left out

- **The driver and prose of the draft script.** Its layout prose (`drafts/graph-algorithms.js:1-101`) and its `console.log` driver (`:562-587`) are not modelled. The driver also calls `transpose` and `sum`, which the file never defines.
- **`adjacency_matrix`** (`drafts/graph-algorithms.js:125-139`). It calls `find_n`, which is not defined anywhere. Only the indexed variant is modelled.
- **The larger worked examples.** These are `merge_nodes_left(4,6,G) == G_merge_4_6`, `simplify_single_edges(G_rule1) == G_rule2`, `simplify_branching(G_rule2) == G_rule3`, `simplify_graph(G) == G_rule3` and the degree queries on `G`. Their graphs have 13 to 31 edges. Evaluating the model on them is beyond the verifier's resource bound, so only the small examples (G1/G2, G3/G4, the line graph) are proved.
- EdgeLists.AdjacencyMatrixWithIndex: an edge whose source is absent from the index gives `None`. JavaScript would instead throw on `adjacency[-1][…]`. An absent target only sets an ignored property at key -1, and the model drops it in the same way.
- **src/graph/vertex.ts.** Vertices are a type parameter with equality, not the key-accessor wrappers of that file.
- **`WithoutLoops.loopRule`** (`src/graph/graph.ts:246-248`). It compares two array references, so it has no value-level meaning.
- **The API in the two test files.** `UndirectedEdge`, `DirectedEdge`, `isLoop`, `connectsTo`, `addEdge` and `NoLoops` appear in `test/graph/edge.spec.ts` and `test/graph/graph.spec.ts` but not in the source. They are not modelled.
- **TypeScript mixins.** The class-factory mixins of `src/graph/graph.ts` are one class here, with the fields `vertices`, `undirected`, `directed` and `roots`.
- Graphs.Graph.AddUndirecteds, Graphs.Graph.AddDirecteds: the argument is a sequence value, so the list is read as it was at the call. In the source `for (const edge of edges)` iterates the live array, and passing the graph's own list (`g.add_undirecteds(g.undirected)` on a non-empty list) keeps pushing onto the array being read and never ends; the model does not capture that aliasing.
- Edges.Undirected.X: the getters `X`, `Y`, `H` and `T` are plain reads of the pair array, with no contract of their own. The nested `vertices[0]` array of the source is the single field `pair` (or `members`, or `head` and `tail`).
- **JavaScript numbers.** Matrix entries, dimensions and keys are unbounded integers. Floating-point rounding and `NaN` are not modelled.
- Matrices.Matrix.SetData: it requires data that fit the shape. The source setter stores anything it is given.
- Matrices.Matrix.Pow: it requires an exponent of at least 1. Below that, the source's `new Array(exp - 1)` throws a range error.
- Matrices.Matrix.Pow: `pow` is a fold in the source, but its step is `mult`, a method that allocates. So `pow` is a method with a loop, specified by the function `Power`.
- Matrices.Matrix.Mult: the data are proved equal to the product, not to the source's step-by-step `+=` accumulation. Every entry starts at 0, so the two agree.
- Dedekind.DedekindCompletion.SetL: `0 <= cut <= |S|` is a class invariant. JavaScript's clamping of `slice` and `splice` outside that range is not modelled.
- **Code and specification disagreements.** Where the written description and the code differ, the model follows the code:
  - Kernels other than single-edges may append a key that is already on the elimination list.
  - `Shape.Square` accepts any `rows == cols`, zero and negative included, because the subclass check replaces the base one.
  - Trace depends on the shape's kind, not its dimensions.

## Findings

| source | as written | input that shows it | evidently intended | confidence | as-written member | corrected member |
|---|---|---|---|---|---|---|
| src/graph/graph.ts:97-121 | `size` sums four per-kind counts that are each 0 in the base class, and no mixin overrides them, so `size` is always 0 | an empty graph with one undirected edge added: `size` is 0 | `size` is the number of edges, as its doc comment says and `test/graph/graph.spec.ts:44` expects | high; not executed | Graphs.Graph.SizeAsWritten, shown by Graphs.SizeAsWrittenMissesEdges and Graphs.SizeExample | Graphs.Graph.Size |
