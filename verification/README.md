# Command-graph optimiser model

A model, in Dafny, of the optimiser for command graphs: DAGs of commands (copies, programs, batches) between an
entry and an exit, held as node objects with doubly linked adjacency lists.  It covers the graph itself (walks with
`int8_t` marks, node numbering, removal, in-place contraction), the passes that rewrite it, the MLIR form some passes
run on, and the argument handling of fused programs.

How the files fit together:

- `Digraphs`, `Quotients`, `QuotientCoherence`, `Traversals`, `Lists`, `Numberings`, `Renamings`, `TwinEdges`: edge sets, order,
  contractions, walks, on any type of node.
- `CommandGraphs`: node and graph objects; `Linked` says both adjacency lists are exactly the edge set.
  `AdjacencyLists` is the version with repeated neighbours that export may leave.
- `ReduceNode`, `ReduceEdge` (with `TransitiveReduction`, `BitSet2Ds`, `Words`), `Sequence` (with `Chains`,
  `LinkChains`, `SequenceOrder`), `PodBatchPass` (with `UnionFinds`, `Islands`, `PodIslands`, `PodBatch`,
  `PodBatchOrder`, `PodBatchStage`), `CopyNormalize` and `PodCopyFusePass` (with `PodCopyFuse`, `TwinRuns`,
  `Copies`), `ProgFuse` (with `SeriesFusions`): the passes on command graphs, as methods that edit the objects in place.
- `MlirGraphs`, `MlirImport`, `MlirExport`, `MlirRoundTrip`, `MlirScans`, `KahnOrders`, `MlirReduceEdge`, `Merging`,
  `MlirBatch` (with `GreedyRuns`), `MlirBatchPass`, `MlirBatchStage`, `MlirCopyFuse` (with `CopyFusions`),
  `MlirCopyStage`: operations, the bridge, and the passes on them.
- `Plans`, `Contractions`, `BatchReplays`, `Pipeline`, `Optimize`: what an execution of a graph with nested batches
  is, and what any choice of passes does to it.
- `ProgSlots`, `ProgMeaning`, `ProgLayout`, `ProgBuffers`: shared argument slots, the fused wrapper, the packed buffer.

Some results are about inputs on which the code does not do what its documentation says, with inputs that fail and the
exact condition: POD batching can close a cycle (`PodBatchOrder`), the POD copy fusion loses a copy whenever it has
anything in range to fuse (`PodCopyFusePass`), packed fusion can hand a body too few or too many bytes when null slots differ in
size (`ProgBuffers`), equal keys can hide different values when a type reads more than its parameter describes
(`ProgMeaning`), the MLIR edge reduction keeps a redundant edge whose token was doubled by batching (`MlirReduceEdge`),
program fusion absorbs an exit that is a program itself (`SeriesFusions`), and normalising or fusing copies can change
what they move when extents leave the machine word or ranges overlap (`Copies`).

A walk needs a mark no live node carries.  New nodes carry mark 0, so after the sequence pass built a batch the next
walk is sound exactly when its mark is not 0; `Optimize.OptimizeGraph` asks its caller for that and nothing more.

## Model

| member | source | states |
|---|---|---|
| CommandGraphs.CommandGraph.Walk | include/cgir/command-graph.hpp:243-269 | A walk under a mark no live node carries calls back once on every live node and on no other; in pre-order every node but the first follows a predecessor, in post-order every successor comes earlier; afterwards exactly the live nodes carry the mark |
| CommandGraphs.CommandGraph.WalkBreadthFirst | include/cgir/command-graph.hpp:270-294 | The same for the queue walk: every live node once, each after one of its predecessors |
| CommandGraphs.CommandGraph.CreateNodeIterators | include/cgir/command-graph.hpp:738-779 | The node vector holds every live node once (without entry and exit if they are left out), `iterator_index` is the position in it, and each node follows one of its predecessors or comes right after the entry |
| CommandGraphs.Link | include/cgir/command-graph.hpp:208-214 | Adding an edge appends to both lists; they stay an exact, duplicate-free picture of the edges if and only if it was not there before |
| CommandGraphs.CommandGraph.constructor | include/cgir/command-graph.hpp:337-367 | A new graph is an entry that precedes an exit, both fresh control nodes of no device |
| ReduceNode.Remove | include/cgir/command-graph.hpp:469-491 | Removing a node leaves lists that are exactly the edges with the node bypassed: old edges away from it, and predecessors joined to successors that were not joined yet |
| ReduceNode.BypassOrder | include/cgir/command-graph.hpp:469-491 | Bypassing a node of a DAG changes nothing about the order of any two others, in either direction |
| ReduceNode.RemovalCost | src/pod/reduce-node.cc:79-91 | After a removal edges are at most the old ones less the m + n at the node plus m * n, so under the pass's test nodes plus edges strictly drop |
| ReduceNode.RemovableExactly | src/pod/reduce-node.cc:74-91 | A control node is removed when its turn comes if and only if it then has at most one neighbour on one side, or two on both |
| ReduceNode.VisitedOrder | src/pod/reduce-node.cc:55-93 | However many control nodes go: entry and exit stay the only source and sink, only control nodes went, survivors are ordered exactly as before and the edge count did not grow |
| ReduceNode.PassReduceNode | src/pod/reduce-node.cc:48-93 | The pass leaves a valid graph that is the bypassing, in walk order, of every inner control node whose cost test held when its turn came |
| BitSet2Ds.BitSet2D.Set | include/cgir/bitset2d.hpp:73-78 | The shift-and-or on the packed word adds exactly the pair (i, j) to the relation the matrix stands for |
| BitSet2Ds.BitSet2D.Test | include/cgir/bitset2d.hpp:80-85 | The packed test answers membership of the pair in that relation |
| BitSet2Ds.BitSet2D.OrRows | include/cgir/bitset2d.hpp:94-102 | The word loop makes row i the union of rows i and j and leaves every other row alone |
| ReduceEdge.FillClosure | src/pod/reduce-edge.cc:59-70 | Accumulated in post-order, row i of the matrix holds exactly the numbers of the nodes reachable from node i |
| ReduceEdge.PruningTest | src/pod/reduce-edge.cc:92-121 | Testing an edge against the successors left in the shrinking list finds it implied if and only if it is implied in the whole graph |
| ReduceEdge.PruneNode | src/pod/reduce-edge.cc:91-121 | One node's in-place erasures remove only redundant edges, keep both lists dual, and leave that node no redundant edge |
| ReduceEdge.PassReduceEdge | src/pod/reduce-edge.cc:48-123 | The pass keeps the nodes and leaves exactly the transitive reduction of the edges, in both lists |
| TransitiveReduction.ReductionSameOrder | src/pod/reduce-edge.cc:106-118 | On an acyclic edge set, dropping every implied edge changes no reachability (the set the in-place loop leaves is the one of ReduceEdge.PassReduceEdge) |
| TransitiveReduction.ReductionTight | src/pod/reduce-edge.cc:106-118 | No edge the reduction keeps is implied by the others it keeps |
| TransitiveReduction.ReductionUnique | src/pod/reduce-edge.cc:106-118 | The reduction is the only edge set with the same reachability and no edge to spare |
| KahnOrders.Kahn | src/mlir/passes/ReduceEdge.cpp:89-107 | The stack-driven Kahn loop lists every operation exactly once, after everything it depends on |
| MlirReduceEdge.FillBackwards | src/mlir/passes/ReduceEdge.cpp:109-118 | Accumulated in reverse topological order the matrix is the reachability of the graph |
| MlirReduceEdge.PruneOp | src/mlir/passes/ReduceEdge.cpp:126-152 | For each redundant edge out of operation i the first token in the user's operand list is erased, and no other token anywhere |
| MlirReduceEdge.PassReduceEdge | src/mlir/passes/ReduceEdge.cpp:38-154 | The pass leaves exactly the edges that are not redundant or whose token was taken twice, and the operand lists say so |
| MlirReduceEdge.LeftSameOrder | src/mlir/passes/ReduceEdge.cpp:120-153 | Whatever tokens are doubled, what the pass leaves orders the operations exactly as before |
| MlirReduceEdge.PassesAgree | src/mlir/passes/ReduceEdge.cpp:120-153 | On the same DAG the two edge reductions agree if and only if no redundant edge's token is doubled |
| MlirReduceEdge.DoubledTokenStays | src/mlir/passes/ReduceEdge.cpp:142-151 | An input where they differ, as batch materialisation builds it: two tokens redirected to one batch leave a redundant edge standing |
| Sequence.CollectChain | src/pod/sequence.cc:143-175 | From a head the walk collects the whole chain of same-device candidates in series, counts its commands, flags each member, and stops where no link goes on |
| Sequence.DetachBoundary | src/pod/sequence.cc:92-124 | Moving the boundary onto the batch leaves the outside linked as the graph with the chain contracted, and the inside linked as the chain's own edges, head and tail bare |
| Sequence.PassSequence | src/pod/sequence.cc:126-206 | The chains found are pairwise disjoint, maximal in the original graph and cover every link; exactly those with two commands or more become batches over a sequence graph of the same nodes; the graph stays valid; the next walk's mark is fresh exactly when nothing was built or that mark is not 0; every batch holds only inner control nodes and programs launched as spawned tasks, two tasks at least, and afterwards no two inner tasks of one device are each other's only neighbour on that side |
| SequenceOrder.SequenceKeepsOrder | src/pod/sequence.cc:92-124 | A node is before another originally if and only if it is in the nested order: by representative across batches, by position inside one |
| SequenceOrder.SequenceContracts | src/pod/sequence.cc:92-124 | The boundary moves, chain by chain, are contractions of an acyclic graph that close no cycle |
| UnionFinds.UnionFind.Find | src/pod/batch.cc:108-116 | Path halving terminates, returns the representative of the class and never changes the partition |
| UnionFinds.UnionFind.Unite | src/pod/batch.cc:118-124 | Uniting merges exactly the two classes |
| PodIslands.FloodFill | src/pod/batch.cc:126-138 | Two nodes share an island if and only if an undirected path of same-device candidate edges joins them; islands have one device |
| PodIslands.FoldRound | src/pod/batch.cc:144-179 | One round, on neighbour sets computed before it, merges every class of same-device candidate roots with equal sets and nothing else; if it reports a change there are fewer roots, if not there were no twins |
| Islands.FoldAcyclic | src/pod/batch.cc:140-179 | Folding false twins all at once on stale neighbour sets leaves a graph that is acyclic if and only if it was |
| PodIslands.DetectIslands | src/pod/batch.cc:126-179 | The loop ends with no two same-device twin islands, having coarsened the flood-fill partition by folds only; it never joins two islands an edge links, and the islands order acyclically if and only if the flood-fill islands do |
| PodBatch.MoveBoundaries | src/pod/batch.cc:242-267 | Walking the edges listed at the start leaves each edge inside its island, untouched, or replaced by one edge between representatives, in both lists and without duplicates |
| PodBatch.SubCoherent | src/pod/batch.cc:269-283 | Each batch's sub-graph is a DAG whose only source is its entry and only sink its exit |
| PodBatchPass.PassBatch | src/pod/batch.cc:75-288 | The whole pass: the top level is linked as the contraction of exactly the islands with two commands or more, every batch's sub-graph as its members' inner edges between fresh ends, for the partition the detection loop computes; no batch holds the entry, the exit, a nested graph or an earlier batch, each holds two commands, and two inner commands of one device that are joined by an edge or have the same predecessors and successors, neither a batch, always end in one batch |
| PodBatchOrder.AcyclicExactly | src/pod/batch.cc:181-240 | The batched graph is acyclic if and only if contracting just the islands with two commands or more closes no cycle, whatever kinds of candidates there are |
| PodBatchOrder.FloodExactly | src/pod/batch.cc:126-240 | When every flood-fill island of several nodes holds two commands, the batched graph is acyclic if and only if the flood-fill quotient is: folding twins and leaving out small islands make no difference |
| PodBatchOrder.CommandsAreWorth | src/pod/batch.cc:201-215 | On a graph whose candidates are all command nodes every flood-fill island of several nodes does hold two commands |
| PodBatchOrder.BatchKeepsOrder | src/pod/batch.cc:242-283 | When the batched graph is valid, whatever was before something still is: between representatives, or inside the batch that holds both |
| PodBatchOrder.DetourBreaks | src/pod/batch.cc:126-138 | A general failing input: if a command precedes another of its device directly and also through a node of another device, the batched graph has a cycle and is not valid |
| PodBatchOrder.ControlDetour | src/pod/batch.cc:201-215 | Why the flood-fill quotient alone does not decide: a detour of control nodes closes a cycle in it, but nothing is batched and the graph stays valid |
| PodBatchOrder.BatchDetour | src/pod/batch.cc:75-288 | The same run: the pass on any valid graph with such a detour (`PodBatchOrder.BuildDetour` makes one of five nodes) leaves a graph that is cyclic and not valid |
| PodBatchStage.PodBatchFits | src/pod/batch.cc:242-283 | A batched graph that is valid is a run of sensible contractions of the original one, away from its ends |
| PodBatchStage.IslandsReplay | src/pod/batch.cc:217-283 | Contracting the islands one after the other, each batch's sub-graph holds exactly its members, ordered as the edges among them |
| MlirBatch.Grouping.Merge | src/mlir/passes/Batch.cpp:188-214 | Absorbing one group into another keeps the scratch sets exactly the quotient of the original edges under the current groups, without self-loops, still acyclic by the same ranking |
| MlirBatch.Grouping.Greedy | src/mlir/passes/Batch.cpp:216-265 | The queue loop terminates and is a run of the greedy rule read on the quotient of the original edges: every turn absorbs the first twin, else the group in series after it, else before it, and goes to the back, or leaves the queue; at the end no two live same-device candidate groups are in series |
| GreedyRuns.GroupsDecided | src/mlir/passes/Batch.cpp:216-265 | Edges, devices and candidates alone decide the groups: any two runs of the rule end in the same ones |
| GreedyRuns.PairsShare | src/mlir/passes/Batch.cpp:216-265 | Of two candidates of one device that the original edges make twins with a predecessor, or put in series, one at least ends in a group with something else |
| MlirBatch.Grouping.NoSeriesLeft | src/mlir/passes/Batch.cpp:216-265 | Read on the quotient of the original edges: once the loop is over, no two live candidate groups of one device are in series |
| MlirBatch.Grouping.Collect | src/mlir/passes/Batch.cpp:267-292 | The groups collected are exactly the live candidate groups with two commands or more, each with its members and its device |
| Merging.MergeRanked | src/mlir/passes/Batch.cpp:181-214 | Merging false twins or a series, in either direction, keeps every ranking of the quotient valid: no merge closes a cycle |
| Merging.MergedSeries | src/mlir/passes/Batch.cpp:188-214 | A merge puts no two groups in series other than the merged one and a neighbour, so requeueing the merged group alone misses none |
| MlirGraphs.GraphOp.MaterializeBatch | src/mlir/passes/Batch.cpp:55-119 | Contracting members into one operation leaves operand lists that are, as sets, those of the quotient; the region holds the members in order with exactly the edges among them |
| MlirBatchPass.PassBatch | src/mlir/passes/Batch.cpp:132-297 | The top level becomes the contraction of exactly the kept groups and stays acyclic; every batch holds its group's inner edges; no two live same-device candidate groups are left in series in the quotient; whatever was before something still is in the nested order; the groups are those of the greedy rule on the original graph; of two inner operations of one device that are twins with a predecessor or in series one at least is grouped, and two commands of one group are in one batch |
| Contractions.ByClassSensible | src/mlir/passes/Batch.cpp:294-296 | Materialising some classes of an acyclic quotient, in any order, closes no cycle on the way |
| Contractions.ByClassNested | src/mlir/passes/Batch.cpp:294-296 | After the contractions, batches expanded, every original precedence still holds |
| MlirImport.ImportGraph | src/mlir/import.cpp:146-206 | One operation per node in walk order carrying its kind, device and command; operands are the tokens of the predecessors in their order; the operation graph is the command graph renamed |
| MlirExport.BuildBatchNode | src/mlir/export.cpp:161-238 | A batch becomes a fresh command node over a sub-graph with one copy per member, linked as the region's operands, entry before its sources and sinks before its exit |
| MlirExport.ExportGraph | src/mlir/export.cpp:242-298 | Every operation gets its own node (the imported one, or a new one), predecessor lists are the operand lists in order, successor lists are dual to them with multiplicities, the marked ends become entry and exit, a linear or two-dimensional copy ends up on its node if that held a command, and every other node keeps what it held |
| AdjacencyLists.ListedOnce | src/mlir/export.cpp:276-289 | Without repeated operands the relinked lists hold no duplicate in either direction |
| MlirRoundTrip.RoundTrip | src/mlir/optimize.cpp:97-122 | Import then export: same nodes, same edges, same entry and exit, same predecessor lists, same commands, and the graph is valid again |
| MlirBatchStage.BatchOnMlir | src/mlir/optimize.cpp:97-122 | Import, batch, export: the command graph becomes the contraction of the kept groups between the same ends, every new node's sub-graph replays its group through copies, no command changes |
| Renamings.ContractedRenamed | src/mlir/export.cpp:253-289 | Contracting and then naming operations by their nodes is contracting the named graph by the named groups |
| Plans.ContractTightens | src/mlir/passes/Batch.cpp:55-119 | Contracting a group whose quotient is acyclic allows no execution, batches expanded in place, that was not allowed before |
| Plans.SoundRuns | include/cgir/command-graph.hpp:408-417 | A plan whose batches each have a run inside and whose top level is acyclic can be executed |
| Contractions.ContractionsTighten | src/mlir/passes/Batch.cpp:294-296 | The same for any run of contractions, with an explicit run inside every batch |
| BatchReplays.ContractExpands | src/pod/sequence.cc:177-206 | Contracting a group in a plan is expanding, in place, the sub-graph of the batch that replays it: same commands, same inner order, one block |
| BatchReplays.AllExpand | include/cgir/command-graph.hpp:408-417 | For a whole pass: the plan of its contractions is the plan read off the sub-graphs of its batches |
| Pipeline.OptimisedExecutes | include/cgir/command-graph.hpp:408-417 | For any list of passes whose groups fit: the plan they make of the graph has an execution, and every execution of it, batches expanded, runs each original command once and after all it depends on |
| Pipeline.FusesContract | src/pod/prog-fuse.cc:115-128 | Fusing chains into their heads, one after the other, is a run of contractions into nodes of the graph itself that closes no cycle and leaves exactly the graph with the chains shortened |
| Optimize.RunPass | include/cgir/command-graph-pass.hpp:57-69 | Each of six passes does what its own contract promises, leaves a DAG between the same ends and advances the walk mark by its number of walks; copy normalisation normalises the inner commands, program fusion rewrites the heads of its chains, and no other changes a command |
| Optimize.SelectedExactly | include/cgir/command-graph-pass.hpp:57-69 | Whatever subset is asked for, what runs is each chosen pass once, by its place in the list of all eight |
| Optimize.OptimizeGraph | include/cgir/command-graph.hpp:404-417 | The passes run are exactly the chosen ones in canonical order, each on what the one before left and each with its evidence; the graph is the result of their stages and is valid when the batch pass is not among them; an original node holds its own command, normalised if that was asked for, unless it heads a chain of programs fused, and then the program fused from such commands |
| Optimize.BatchesAreExpanded | include/cgir/command-graph.hpp:404-417 | In such a run every batching pass changes the plan by expanding each batch into what its own sub-graph holds and orders |
| Optimize.RunExecutes | include/cgir/command-graph.hpp:404-417 | Whatever subset of the passes was chosen, the result can be executed and every execution of it executes the original graph |
| CopyNormalize.PassCopyNormalize | src/pod/copy-normalize.cc:48-120 | Every inner block copy becomes linear if its columns leave no gap on either side and otherwise a block of single bytes, keeps direction and devices, and moves the bytes it moved whenever the numbers fit a machine word; every other command, the entry, the exit and the rest of the graph are untouched |
| Copies.LinearExactly | src/pod/copy-normalize.cc:78-94 | The linear form moves exactly the block's bytes if and only if their number fits a machine word |
| Copies.BytesExactly | src/pod/copy-normalize.cc:95-106 | The byte form moves exactly the block's bytes if and only if there are none, or the scaled width fits a word and, with several columns, the scaled strides do |
| Copies.NormalizedOnce | src/pod/copy-normalize.cc:73-107 | Normalising twice is normalising once, except if and only if scaling itself closes the gaps of a block that had some |
| Copies.NormalizedIdempotent | src/pod/copy-normalize.cc:73-107 | With a positive element size and extents that fit a word it is idempotent |
| Copies.NormalizedTwice | src/pod/copy-normalize.cc:95-106 | Two blocks that a second run changes: one with element size zero, one whose strides wrap round |
| Copies.FusableExactly | src/pod/copy-fuse.cc:86-127 | Two in-range copies between the same devices pass the test if and only if one linear copy can move exactly the bytes of both |
| Copies.EndsAtTop | src/pod/copy-fuse.cc:105-112 | Why a range ending exactly at the top of the address space is not in range: its end wraps to 0 and the test misses a neighbour one copy could move with it |
| Copies.FusedMoves | src/mlir/passes/CopyFuse.cpp:64-83 | The fused copy moves exactly the union of what the two moved |
| Copies.FusedExactly | src/mlir/passes/CopyFuse.cpp:74-83 | On memory the fused copy equals one copy after the other if and only if neither reads what the other writes, or both copy in place |
| Copies.Reread | src/mlir/passes/CopyFuse.cpp:74-83 | Every other fusable pair is a failing input: some memory ends up different |
| CopyFusions.Unfused | src/mlir/passes/CopyFuse.cpp:124-158 | Every execution of the fused graph is an execution of the original one, absorbed copies run next to their absorber, and leaves the same memory, if each fusion was safe when it happened |
| CopyFusions.SeparateIsSafe | src/mlir/passes/CopyFuse.cpp:124-158 | Copies that are in range and pairwise apart in the original graph keep every step of every run of fusions safe |
| CopyFusions.SeparateKeepsMemory | src/mlir/passes/CopyFuse.cpp:124-158 | So on such a graph the final memory of any execution is one the original graph produces |
| CopyFusions.FusionsKeepOrder | src/mlir/passes/CopyFuse.cpp:85-96 | The operations left are ordered exactly as before, both ways |
| PodCopyFuse.ContractTwins | include/cgir/command-graph.hpp:527-547 | The in-place contraction of false twins takes the absorbed node out of its neighbours' lists, found through its twin's, and leaves both twins' own lists as they were |
| PodCopyFuse.TryFuse | src/pod/copy-fuse.cc:58-227 | The step fuses if and only if the two are different linear copies, false twins, and pass the test; then the absorbed one is gone from the graph and the other holds the fused copy. It gives up, as the source aborts, if and only if one of two twin copies is two-dimensional and the other linear or of the same shape; else nothing changes |
| PodCopyFusePass.PassCopyFuse | src/pod/copy-fuse.cc:242-271 | The whole loop, absorbed nodes visited again with the lists they had: for in-range linear copies every inner one is still held by a linked node afterwards if and only if no two inner ones are false twins that touch, and then the graph, its lists and its commands are untouched; otherwise some copy is lost. What is left is linked and acyclic, and every copy moves exactly the bytes of the original copies it stands for |
| PodCopyFusePass.Siblings | src/pod/copy-fuse.cc:263-269 | One sweep over the siblings of a node, linked or absorbed: it fuses the first that passes and starts over, or none passes; what it fuses with is always linked |
| PodCopyFusePass.LoseBoth | src/pod/copy-fuse.cc:242-271 | An input: of two touching copies between an entry and an exit (`PodCopyFusePass.BuildSideBySide` makes the graph) the pass leaves neither |
| TwinRuns.OnlyLive | src/pod/copy-fuse.cc:265-269 | Whatever an absorbed node finds through its old lists and can fuse with is still linked |
| TwinRuns.AbsorbedLoses | src/pod/copy-fuse.cc:256-270 | What an absorbed node absorbs is held by no linked node any more |
| TwinRuns.LiveTaken | src/pod/copy-fuse.cc:249-270 | While only linked nodes have absorbed: a linked node absorbs only twins not visited yet, visited ones have nothing left to absorb, and the last one absorbed will be able to absorb its absorber |
| TwinRuns.AllOrNothing | src/pod/copy-fuse.cc:242-271 | So after the last visit the pass has either done nothing, exactly when there was nothing to fuse, or lost a copy |
| MlirCopyFuse.PassCopyFuse | src/mlir/passes/CopyFuse.cpp:109-159 | The pass is a run of fusions of false twins that touch, erases exactly the absorbed copies, finds one if there is one, and keeps the outcome of every execution when sources and destinations are separate; if all copies are in range, no two copies left that are twins with a predecessor touch |
| CopyFusions.FusionsCarry | src/mlir/passes/CopyFuse.cpp:64-83 | However many copies in range are fused, the linear copies left move exactly the bytes, between the same devices, that all of them moved |
| MlirCopyStage.FusionsCalled | src/mlir/export.cpp:253-289 | Fusing and then naming operations by their nodes is fusing the named graph by the named fusions |
| MlirCopyStage.CopyFuseOnMlir | src/mlir/optimize.cpp:97-122 | Import, fuse, export: the command graph, commands included, is what a run of fusions of its own nodes leaves, a DAG between the same ends; for copies in range its nodes move exactly the bytes they moved, and no two twin nodes hold copies that touch |
| ProgFuse.ContractSeries | include/cgir/command-graph.hpp:577-595 | The in-place contraction of a series overwrites the tail's entry in its successors' predecessor lists, hands its successor list to the head, and leaves lists that are exactly the contracted graph's |
| SeriesFusions.ShortenedOrder | include/cgir/command-graph.hpp:577-595 | Contracting a chain into its head keeps the order of the nodes left exactly, both ways |
| ProgFuse.CollectPrograms | src/pod/prog-fuse.cc:94-110 | From a program the walk collects the whole chain of LLVM-IR programs in series launched alike and stops where no link goes on |
| ProgFuse.NextSeries | src/pod/prog-fuse.cc:123-128 | After the first members were absorbed the head and the next one are a series again, so each contraction may be made; absorbing it is contracting the longer chain |
| ProgFuse.AbsorbOne | src/pod/prog-fuse.cc:123-128 | One step of the loop meets the contraction's precondition, absorbs the member and flags it |
| ProgFuse.PassProgFuse | src/pod/prog-fuse.cc:74-130 | If no program is in series with the exit and launched as it is: the chains fused are pairwise disjoint, maximal in the original graph and cover every link between programs launched alike; heads hold the program fused from the chain's codes in order with their own launch, every other command is unchanged; survivors keep their order exactly; nothing is left to fuse; on the commands themselves: a chain's members have its head's launch mode, grid and block, two inner programs in series that agree in all three are in one chain, and afterwards no two in series do |
| ProgFuse.UnfusedSchedule | src/pod/prog-fuse.cc:115-128 | Every schedule of the fused graph, with each chain run in the place of its head, is a schedule of the original graph |
| ProgFuse.FuseTwice | src/pod/prog-fuse.cc:74-130 | A second run fuses nothing and leaves nodes, edges and commands alone |
| SeriesFusions.CollectedIsMaximal | src/pod/prog-fuse.cc:81-113 | A chain collected from a node in walk order starts at its true head, is maximal in the original graph, and meets no chain fused before |
| SeriesFusions.SinkAbsorbed | src/pod/prog-fuse.cc:94-129 | Otherwise the chain that leads to the exit absorbs it, and what is left is no graph with that exit |
| ProgSlots.Deduplicate | src/prog-fuse-llvmir.cc:978-1082 | One shared slot per leaf key, served by the first slot that had the key, and a contiguous block of its own per wrapper |
| ProgSlots.SharedExactly | src/prog-fuse-llvmir.cc:1008-1082 | Two leaf slots share a slot if and only if their keys are equal |
| ProgSlots.SharedArguments | src/prog-fuse-llvmir.cc:985-1045 | On the arguments themselves, without keys: two leaf slots share a slot if and only if both are described with one kind and size and hold the same bytes, or neither is and both have one narrow type and the same bytes, or there is nothing to compare and they are at one address |
| ProgSlots.TypesApart | src/prog-fuse-llvmir.cc:1025-1039 | Undescribed slots of different types are kept apart, unless both types are empty or too wide and the slots are at one address |
| ProgSlots.SlotsDescribed | src/prog-fuse-llvmir.cc:985-1006 | A shared slot keeps the size and kind its first user was described with, 0 and by value if it was not, and a wrapper's slot is a reference |
| ProgSlots.SliceIsItsOwn | src/prog-fuse-llvmir.cc:1047-1058 | A wrapper's slice is its own slots in order, and no leaf is served from it |
| ProgMeaning.SlotTypes | src/prog-fuse-llvmir.cc:1150-1165 | Typing the shared slots succeeds if and only if every use of a slot has one type, and then gives that type |
| ProgMeaning.EqualKeysEqualValues | src/prog-fuse-llvmir.cc:1008-1045 | Slots with equal keys and one type hold the same value when every key covers what its type reads |
| ProgMeaning.KeyCoversExactly | src/prog-fuse-llvmir.cc:1008-1045 | For two described slots of one type that is so in every memory if and only if the described size covers what the type reads, or they are one slot |
| ProgMeaning.FusedIsSequence | src/prog-fuse-llvmir.cc:1380-1505 | With programs as arbitrary functions and slots they do not overwrite, the wrapper that reads each shared slot once up front equals running the programs in order on their own slots |
| ProgMeaning.FuseChain | src/prog-fuse-llvmir.cc:978-1165 | The way there: deduplicating and typing succeeds if and only if all uses of each slot have one type, and then the fused program is the sequence, for all programs and every memory |
| ProgMeaning.FusingAgain | src/prog-fuse-llvmir.cc:1388-1395 | Fusing a fused program again through its slice equals fusing all the programs at once |
| ProgLayout.MaskRounds | src/prog-fuse-llvmir.cc:1215-1215 | Masking off the low k bits of a word rounds it down to a multiple of 2^k |
| ProgLayout.AlignUpRounds | src/prog-fuse-llvmir.cc:1215-1215 | For a power of two the bit trick gives the first multiple at or after the offset, if the sum fits a word |
| ProgLayout.Layout | src/prog-fuse-llvmir.cc:1192-1221 | The offset loop places every slot aligned, in order, and inside the packed size, which is never 0 |
| ProgLayout.LayoutIsLeast | src/prog-fuse-llvmir.cc:1192-1221 | No aligned layout in that order places any slot earlier |
| ProgBuffers.LaidFields | src/prog-fuse-llvmir.cc:1196-1218 | Slots so laid out are pairwise disjoint ranges inside the buffer |
| ProgBuffers.PackFused | src/prog-fuse-llvmir.cc:1732-1756 | The fused buffer is laid out by that loop on the shared slots' sizes and kinds and holds every slot's bytes at its offset: each slot right behind the last, a slot of unknown size taking a byte, references at the next multiple of 8 |
| ProgBuffers.MatchedExactly | src/prog-fuse-llvmir.cc:985-1045 | Every parameter is rebuilt from its slot in full, and no more, if and only if the first null slot of the chain can serve the others: each null parameter has its size, or it is copied by value with a size other than 1, 2, 4 and 8 and the parameter is smaller |
| ProgBuffers.TooFewBytes | src/prog-fuse-llvmir.cc:1470-1495 | Failing inputs, too few bytes: a parameter wider than the register it shares keeps a stale byte of the stack in the rebuilt buffer |
| ProgBuffers.TooManyBytes | src/prog-fuse-llvmir.cc:1470-1495 | Too many: a narrower one in the last field is stored past the end of the buffer |
| ProgBuffers.OverwritesNext | src/prog-fuse-llvmir.cc:1470-1495 | ... and one before another field overwrites bytes that field was given already |
| ProgBuffers.StoredIsRebuilt | src/prog-fuse-llvmir.cc:1470-1495 | Under that condition the stores, one after the other, leave every parameter with its slot's bytes whatever the stack held |
| ProgBuffers.RebuildBody | src/prog-fuse-llvmir.cc:1470-1495 | Under that condition the buffer rebuilt for a body agrees, on every byte its parameters cover, with the one it would be packed into alone |
| ProgBuffers.PackedIsSequence | src/prog-fuse-llvmir.cc:2209-2230 | Calling the bodies on rebuilt buffers does what they do one after another on their own |
| ProgBuffers.PackChain | src/prog-fuse-llvmir.cc:978-1500 | The whole way: shared slots, fused buffer, one rebuilt buffer per body; for all bodies that read only their parameters the run on the rebuilt buffers is the run on their own ones |

## Left out

- Optimize.OptimizeGraph: copy-normalize, reduce-node, reduce-edge, prog-fuse and sequence run in their command-graph
  form and batch in its MLIR form; the switch between the two optimisers by an environment variable (src/cgir.cc:75-84)
  is not modelled.  copy-fuse is no member of the set, because the command-graph form loses copies, and neither is jit.
- MlirBatchPass.PassBatch: the order of the operations inside a batch, which follows the merges, is not stated.
- Optimize.RunPass: the same six passes as `Optimize.OptimizeGraph`.
- PodBatchOrder.AcyclicExactly: the condition is on the islands the detection loop ends with; `PodBatchOrder.FloodExactly`
  puts it on the flood-fill of the input.
- TransitiveReduction.ReductionSameOrder: about edge sets; `ReduceEdge.PassReduceEdge` leaves exactly that set in the lists.
- TransitiveReduction.ReductionUnique: about edge sets, likewise.
- ProgMeaning.FusedIsSequence: asks that keys cover what their types read; `ProgMeaning.KeyCoversExactly` says why.
- ProgMeaning.FusingAgain: asks the same.
- ProgBuffers.PackChain: asks that the shared slots, laid out, fit the address space.
- MlirBatchStage.BatchOnMlir: batch members with a common outside user leave that user a doubled token
  (src/mlir/passes/Batch.cpp:91-100), so the exported lists are stated as sets with equal multiplicities, not as
  duplicate-free lists.
- MlirExport.BuildBatchNode: a member's command is copied as a value; that the copy and the original share one object
  is not captured.
- ProgFuse.PassProgFuse: what LLVM makes of the linked programs is a parameter of the pass (a function from the codes in
  order to a code); that the consumed programs' buffers are freed is not modelled.
- PodCopyFusePass.PassCopyFuse: the `contracted` flag is read (src/pod/copy-fuse.cc:256) and never set, so it is left out;
  which copies are lost, beyond that some are, is said only for the graph of `PodCopyFusePass.LoseBoth`.
- Fusing two-dimensional copies, or a linear with a two-dimensional one, aborts in the source (src/pod/copy-fuse.cc:129-218):
  the pass then stops and reports it.
- The contraction without a hint and the other non-in-place contractions (include/cgir/command-graph.hpp:549-575,
  597-700) are used by no modelled pass.
- `clear`, `rows_intersect`, `reset_row`, `reset_all` and `dump` of the bit matrix are used by no pass.
- Callbacks that change the graph during a walk: walks return the nodes in callback order, and callers work on that list.
- The order in which an unordered map lists islands (src/pod/batch.cc:201, 273): islands are taken in the order of their
  roots; the result does not depend on it, but sub-graph allocation order would.
- The order in which MLIR lists the users of a token: body order is used.
- The successor lists of the POD island detection are read once into numbers before the loops; the source reads them in
  place, and nothing changes them meanwhile.
- MLIR's own reduce-node, copy-normalize and prog-fuse passes mirror the ones modelled.
- All LLVM work (parsing, linking, inlining, optimisation, code generation, device kernels), heap ownership flags, the
  merge of extern tables, the jit pass, dumps, statistics and name tables.
- COMMAND_GRAPH and CONDITION nodes: no pass creates them and import aborts on them (src/mlir/import.cpp:115-117).
- Null command pointers on command nodes, which the source asserts against.
