# molecule-engine core in Dafny

This project models the core of molecule-engine, a Rust game-engine prototype, and proves properties of that model. The core has two parts.

**Synchronization graph.** Tasks are the synchronization dependents. Each one runs its `tick` on its own thread. Their ticks are ordered by a graph of named synchronization nodes.

- A `SynchronizationGraphTemplate` collects template nodes and dependents, and rejects a name used twice.
- `build_and_submit` checks the graph and wires it:
  - every node must have children;
  - every child name must name some other node;
  - one capacity-1 channel is created per (node, child) pair;
  - a channel starts with a token when its child is an entrypoint;
  - every dependent is then offered every node, and the build fails at the first dependent left unfilled.
- At run time:
  - `wait_for_parents` takes one token from each parent channel;
  - `release_children` puts one token on each child channel.
- The example `sync_test` wires three nodes for two tasks. `DoAFlip` halves a shared `u32`. `DoAFlop` adds one to it. Both tasks find the shared value through the typed object registry (`clone_objekt_in_list`). The model also covers the library's do-nothing claimant `Controlling`, which the example does not use.

**Voxel storage.** A `HybridOctree` keeps its levels in a list sorted by the key `VoxelLocation::linearize`, searched by a binary search (`SortedLevelList::get`).

- `load_level` creates a missing level: `level_length^3` particles whose material bytes come from a hasher.
- When the key is already stored, `load_level` marks that entry loaded.
- `get_level` returns a stored level, or panics when the key is not stored.

The octree exists twice: the voxel world's copy, and the objekt copy with struct-of-arrays particles.

## Modelling choices

- Modules follow the source files: Wrappers, Machine, Vectors, SortedLevelList, VoxelOctree, ObjektOctree, MoleculeObjekt, SyncNodes, SyncWiring, SyncGraph, SyncTasksBasics, TaskControlling and SyncScenario.
- Rust integer types are subset types of `int` (`u8` … `u64`). Overflow is explicit:
  - checked arithmetic returns `Option`, and `None` stands for the debug-build overflow panic;
  - `as u8` and `as u32` keep the low bits.
- Panics become either an error value or a precondition:
  - `get_level` returns a `Result`, with an `Err` for the explicit panic and one for an overflowing key;
  - `load_level` and `HybridOctree::new` require the conditions under which they do not panic.
- Objects that change in place are classes: the graph template, template nodes, the two example tasks, the channels and the shared `u32` cell. Calculations that only compute a value are functions.
- Runtime nodes are values in a list indexed like the template nodes. Tasks hold indices into that list where the source holds `Arc<Mutex<_>>` handles.
- Channels are token counters (0 or 1) per edge.
- A wiring failure is first the value `SyncWiring.WireError` (a node without children, or a child name without a match). `SyncWiring.Message` turns it into the exact string `build_and_submit` returns.
- A thread that would block on a channel is reported as a result naming the node and the position of the edge it blocks on. The sends and receives done before that point stay done.
- A `DefaultHasher` is the log of the bytes written to it. Its `finish` is a parameter: a function from that log to a `u64`.
- The trait objects `Arc<RwLock<dyn SynchronizationDependent>>` become the closed datatype `SyncGraph.Dependent`, with one case per implementation (`DoAFlip`, `DoAFlop`, `Controlling`).

Three behaviours of the code that differ from what a reader might expect; the model follows the code:

- The pre-charge test checks the child's name, not the parent's, against the entrypoints.
- `submit_nodes` offers every node, last registered first, and never stops early. Each slot therefore ends up with the lowest-numbered matching node.
- `push_node` reports a duplicate with the same "Dependency name … is used more than once." message as `push_dependency`.

Behaviours of the code that the model keeps as written:

- When a key is absent but one or more stored keys are greater, `load_level` marks the entry at the search index loaded and inserts nothing. A level is created only when the search index is the end of the list.
- The voxel copy's `half_limit = 2<<15` is a `u16` and so equals 0. The objekt copy uses `1<<15` = 32768.
- The exponent `(level_depth - lod) as u32` wraps. A depth 2^32 above the level of detail yields key 1.
- The objekt copy pushes only the `material` and `pos` columns; the gpu index columns stay empty.

## Model

| member | source | states |
|---|---|---|
| Machine.HashU8 | src/voxels/storage/hybrid_octree.rs:111 | hashing a `u8` appends exactly that byte to the hasher's input |
| Vectors.Mul | src/math/vectors.rs:9 | checked `u64` multiplication: a value exactly when the product fits, and then the product |
| Vectors.Add | src/math/vectors.rs:9 | checked `u64` addition: a value exactly when the sum fits, and then the sum |
| Vectors.Sub | src/math/vectors.rs:9 | checked `u64` subtraction: a value exactly when there is no underflow, and then the difference |
| Vectors.CheckedPow | src/math/vectors.rs:9 | checked power: a value exactly when b^e fits in a `u64`, and then b^e |
| Vectors.Linearize | src/math/vectors.rs:8-10 | panic-free exactly when every intermediate fits and `lod <= level_depth`; the key is ((x*sy*sz + y*sz + z)*(sx*sy*sz) + 2)^((depth - lod) mod 2^32) |
| Vectors.LinearizeAtLevelDepth | src/math/vectors.rs:9 | at `lod == level_depth` every location has key 1 |
| Vectors.LinearizeNeedsLodWithinDepth | src/math/vectors.rs:9 | `lod > level_depth` always panics (underflow) |
| Vectors.LinearizeLowerBound | src/math/vectors.rs:9 | keys are at least 1, and at least 2 exactly when the exponent `(level_depth - lod) as u32` is not 0 |
| Vectors.LinearizeStrictlyIncreasing | src/math/vectors.rs:9 | at one level of detail whose exponent `(level_depth - lod) as u32` is not 0, a later cell in x-major order has a strictly larger key |
| Vectors.IndexInjective | src/math/vectors.rs:9 | in-bounds coordinates have distinct x-major cell indices |
| Vectors.LinearizeDistinct | src/math/vectors.rs:9 | distinct in-bounds cells at one level of detail whose exponent `(level_depth - lod) as u32` is not 0 get distinct keys (with exponent 0 every key is 1) |
| Vectors.ExponentCastWraps | src/math/vectors.rs:9 | when `level_depth - lod` is 2^32 the `as u32` cast makes the exponent 0, so the key is 1 |
| SortedLevelList.Probe | src/voxels/storage/sorted_level_list.rs:22 | the probe index lies inside the search window |
| SortedLevelList.GetRecur | src/voxels/storage/sorted_level_list.rs:18-31 | the index stays in the window; "found" means the key at that index is the one sought; on a sorted list "not found" gives the insertion point |
| SortedLevelList.Get | src/voxels/storage/sorted_level_list.rs:33-35 | on a sorted list: found exactly when the key is stored; otherwise the index separates smaller from larger keys; an empty list gives (false, 0) |
| SortedLevelList.KeyIndexUnique | src/voxels/storage/sorted_level_list.rs:18-31 | on strictly ascending keys each key sits at exactly one index |
| SortedLevelList.GetFindsTheIndex | src/voxels/storage/sorted_level_list.rs:18-35 | a stored key is found at the one index holding it |
| SortedLevelList.InsertAtSearchIndexKeepsOrder | src/voxels/storage/sorted_level_list.rs:18-35 | inserting an absent key at the reported index keeps the list strictly ascending |
| VoxelOctree.Seeds | src/voxels/storage/hybrid_octree.rs:105-113 | the j-th byte hashed while filling a level is `j mod 256` |
| VoxelOctree.HybridOctree.constructor | src/voxels/storage/hybrid_octree.rs:61-75 | panics unless `level_length > 1`; stores depth and length with an empty level list |
| VoxelOctree.HybridOctree.GetLevel | src/voxels/storage/hybrid_octree.rs:77-83 | the level stored under the location's key exactly when that key is stored, else the "This Level is not loaded" panic; an overflowing key is the linearize panic |
| VoxelOctree.HybridOctree.LoadLevel | src/voxels/storage/hybrid_octree.rs:85-131 | creates the level at the end of the list when the search index is the end, else marks the entry at the index loaded; returns the hasher with exactly the hashed bytes appended |
| VoxelOctree.HashMaterials | src/voxels/storage/hybrid_octree.rs:109-114 | the 512 material bytes of particle i are `finish() mod 256` after each seed, and the hasher gains those seeds |
| VoxelOctree.CreateLevel | src/voxels/storage/hybrid_octree.rs:101-118 | the loop builds exactly the specified fresh level and hashes `volume * 512` seeds |
| VoxelOctree.LoadKeepsKeys | src/voxels/storage/hybrid_octree.rs:86-128 | loading never drops or reorders keys; it appends the key exactly when it creates a level |
| VoxelOctree.LoadKeepsOrder | src/voxels/storage/hybrid_octree.rs:86-128 | loading keeps the keys strictly ascending |
| VoxelOctree.CreatesIffAboveAllKeys | src/voxels/storage/hybrid_octree.rs:87-88 | on a sorted list a level is created exactly when its key exceeds every stored key |
| VoxelOctree.LoadStoredKeyMarksIt | src/voxels/storage/hybrid_octree.rs:126-128 | loading a stored key marks that entry loaded and leaves every other entry unchanged |
| VoxelOctree.LoadAbsentKeyInsideListInsertsNothing | src/voxels/storage/hybrid_octree.rs:86-128 | an absent key below some stored key is not inserted; the next larger entry is marked loaded instead |
| VoxelOctree.CreatedLevelIsFound | src/voxels/storage/hybrid_octree.rs:86-123 | after a load that created a level, searching its key finds it, loaded, with the created contents |
| VoxelOctree.FreshLevelShape | src/voxels/storage/hybrid_octree.rs:98-118 | a new level is loaded, has `volume` particles of 512 material bytes each, gpu indices 0 and position (0, 0, 0) |
| VoxelOctree.SeedIndependentOfParticle | src/voxels/storage/hybrid_octree.rs:111 | the seed `(i*512 + m) % 256` depends only on m |
| ObjektOctree.Seeds | src/objekt_impl/storage/hybrid_octree.rs:105-114 | the j-th seed is `(linearized*volume + j mod 256) mod 256` |
| ObjektOctree.HybridOctree.constructor | src/objekt_impl/storage/hybrid_octree.rs:65-75 | panics unless `level_length > 1`; stores depth and length with an empty level list |
| ObjektOctree.HybridOctree.GetLevel | src/objekt_impl/storage/hybrid_octree.rs:77-83 | the level whose ordinal is the location's key exactly when that ordinal is stored, else the "not loaded" panic |
| ObjektOctree.HybridOctree.LoadLevel | src/objekt_impl/storage/hybrid_octree.rs:85-137 | creates the level at the end of the list when the search index is the end, else marks the entry at the index loaded; the hasher gains exactly the hashed seeds |
| ObjektOctree.HashMaterials | src/objekt_impl/storage/hybrid_octree.rs:106-113 | the material entry of particle i and the hasher after its 512 seeds |
| ObjektOctree.FillMaterials | src/objekt_impl/storage/hybrid_octree.rs:105-114 | the first loop pushes one material entry per particle and touches no other column |
| ObjektOctree.FillPositions | src/objekt_impl/storage/hybrid_octree.rs:115-123 | the second loop pushes `volume` copies of (32768, 32768, 32768) on the `pos` column only |
| ObjektOctree.LoadKeepsOrdinals | src/objekt_impl/storage/hybrid_octree.rs:86-134 | loading never drops or reorders ordinals; it appends the key exactly when it creates a level |
| ObjektOctree.LoadKeepsOrder | src/objekt_impl/storage/hybrid_octree.rs:86-134 | loading keeps the ordinals strictly ascending |
| ObjektOctree.LoadThenFind | src/objekt_impl/storage/hybrid_octree.rs:86-134 | a created level is found at its ordinal; loading a stored ordinal marks that entry loaded and changes nothing else |
| ObjektOctree.LoadAbsentKeyInsideListInsertsNothing | src/objekt_impl/storage/hybrid_octree.rs:86-134 | an absent key below some stored ordinal is not inserted; the next larger entry is marked loaded |
| ObjektOctree.FreshLevelShape | src/objekt_impl/storage/hybrid_octree.rs:99-124 | a new level has `volume` material entries of 512 bytes and `volume` positions (32768, 32768, 32768); the gpu columns stay empty |
| ObjektOctree.HybridOctreeObjekt.constructor | src/objekt_impl/storage/hybrid_octree.rs:46-50 | stores the name and the shared octree |
| ObjektOctree.HybridOctreeObjekt.Name | src/objekt_impl/storage/hybrid_octree.rs:52-56 | the objekt's name is its stored name |
| MoleculeObjekt.CloneObjektInList | src/concurrency/molecule_objekt.rs:17-30 | None when no object has the name; otherwise the downcast of the first object with the name |
| MoleculeObjekt.FirstMatchDecides | src/concurrency/molecule_objekt.rs:17-30 | the first object with the name decides the result, even when its downcast fails |
| MoleculeObjekt.FirstIndexNamed | src/concurrency/molecule_objekt.rs:20-28 | when some object has the name, there is a first such position |
| MoleculeObjekt.LaterObjectsIgnored | src/concurrency/molecule_objekt.rs:20-28 | objects after the first one with the name never affect the result |
| SyncNodes.TemplateSynchronizationNode.constructor | src/concurrency/synchronization_graph.rs:163-169 | a new template node has the given name and no children |
| SyncNodes.TemplateSynchronizationNode.PushChild | src/concurrency/synchronization_graph.rs:179-181 | appends exactly one child name |
| SyncNodes.TemplateSynchronizationNode.Decl | src/concurrency/synchronization_graph.rs:147-151 | the value the graph keeps holds the node's name and children |
| SyncNodes.Channels.constructor | src/concurrency/synchronization_graph.rs:51-54 | the channels start with the given tokens, at most one per edge |
| SyncNodes.Channels.WaitForParents | src/concurrency/synchronization_graph.rs:134-138 | receives from the parent edges in order, and reports the first empty one as the place it blocks |
| SyncNodes.Channels.ReleaseChildren | src/concurrency/synchronization_graph.rs:140-144 | sends on the child edges in order, and reports the first full one as the place it blocks |
| SyncNodes.ReceiveOutcome | src/concurrency/synchronization_graph.rs:134-138 | receiving on distinct edges empties each edge before the first empty one, and blocks exactly there |
| SyncNodes.SendOutcome | src/concurrency/synchronization_graph.rs:140-144 | sending on distinct edges fills each edge before the first full one, and blocks exactly there |
| SyncNodes.WaitNeedsEveryParentFull | src/concurrency/synchronization_graph.rs:134-138 | a wait passes exactly when every parent edge holds a token; it then empties exactly those edges |
| SyncNodes.ReleaseNeedsEveryChildEmpty | src/concurrency/synchronization_graph.rs:140-144 | a release passes exactly when every child edge is empty; it then fills exactly those edges |
| SyncNodes.ReleaseThenWaitRestores | src/concurrency/synchronization_graph.rs:134-144 | a release that does not block, followed by a wait on the same edges, restores the tokens |
| SyncWiring.InitialTokens | src/concurrency/synchronization_graph.rs:51-54 | an edge starts with one token exactly when it was pre-charged, and never more |
| SyncWiring.FindFrom | src/concurrency/synchronization_graph.rs:42-66 | a match from j on is a node other than the parent that carries the child's name |
| SyncWiring.FindFromFirst | src/concurrency/synchronization_graph.rs:42-66 | the match from j on is the first such node; no match means no node from j on, other than the parent, has the child's name |
| SyncWiring.FirstMatch | src/concurrency/synchronization_graph.rs:42-66 | a match is a node other than the parent that carries the child's name |
| SyncWiring.FirstMatchFirst | src/concurrency/synchronization_graph.rs:42-66 | the match is the first such node; no match means no node other than the parent has the child's name |
| SyncWiring.FindChild | src/concurrency/synchronization_graph.rs:42-66 | the inner search loop returns exactly that first match |
| SyncWiring.Wire | src/concurrency/synchronization_graph.rs:32-72 | the nested wiring loops produce exactly the specified wiring or error |
| SyncWiring.BelowFacts | src/concurrency/synchronization_graph.rs:55-61 | the edges a node receives or sends among the first n are distinct indices below n, each with that node at the right end |
| SyncWiring.EdgesIntoFacts | src/concurrency/synchronization_graph.rs:55-61 | the receivers of a node are distinct existing edges, each consumed by that node |
| SyncWiring.EdgesOutOfFacts | src/concurrency/synchronization_graph.rs:55-61 | the senders of a node are distinct existing edges, each produced by that node |
| SyncWiring.EdgeListsWellFormed | src/concurrency/synchronization_graph.rs:55-61 | every node's edge lists are distinct existing edges |
| SyncWiring.NodesOf | src/concurrency/synchronization_graph.rs:55-61 | runtime nodes name only existing edges, without repeats |
| SyncWiring.EdgeFor | src/concurrency/synchronization_graph.rs:50-61 | the edge for a child goes from the parent to another node of the child's name, pre-charged exactly when that name is an entrypoint |
| SyncWiring.ScanEdges | src/concurrency/synchronization_graph.rs:40-70 | the scan of a node's first c children creates exactly c edges |
| SyncWiring.ScanEdgesAt | src/concurrency/synchronization_graph.rs:40-70 | edge d of a node's scan is the edge for its child d, so the edges follow the children in order |
| SyncWiring.BelowPrefix | src/concurrency/synchronization_graph.rs:55-61 | a node's edge lists below n depend only on the first n edges |
| SyncWiring.EdgesAppendOne | src/concurrency/synchronization_graph.rs:55-61 | a new edge extends exactly its producer's senders and its consumer's receivers |
| SyncWiring.ConnectKeepsNodesOf | src/concurrency/synchronization_graph.rs:55-61 | connecting two nodes is adding one edge to the list the runtime nodes come from |
| SyncWiring.WireOutcome | src/concurrency/synchronization_graph.rs:32-72 | wiring succeeds exactly when every node has children and each child names another node; then there is one edge per (node, child) in scan order, and each runtime node holds exactly its edges; a failure is the error of some fault |
| SyncWiring.WireStep | src/concurrency/synchronization_graph.rs:32-72 | one step of the nested loops past a good pair or a finished node keeps every earlier edge wired and does not change the outcome |
| SyncWiring.WireStopsAtFault | src/concurrency/synchronization_graph.rs:32-70 | a scan that has not yet passed a fault stops with that fault's error |
| SyncWiring.WiredAtFault | src/concurrency/synchronization_graph.rs:32-70 | a scan stopped at a fault has wired every (node, child) pair before it |
| SyncWiring.WireFailsAtFirstFault | src/concurrency/synchronization_graph.rs:32-70 | at the first fault (a node without children, or a child naming no other node) the build fails with that fault's error, all earlier pairs wired |
| SyncWiring.WiredEdgesPrecharged | src/concurrency/synchronization_graph.rs:51-54 | after a successful wiring every edge joins two different nodes and starts with a token exactly when its consumer is an entrypoint |
| SyncWiring.EdgeForConsumer | src/concurrency/synchronization_graph.rs:42-54 | with unique names, a child's edge goes to node j exactly when j is another node carrying the child's name |
| SyncWiring.EdgesConcatCount | src/concurrency/synchronization_graph.rs:55-61 | the edges a node receives or sends in two edge lists joined add up |
| SyncWiring.PlannedStepCounts | src/concurrency/synchronization_graph.rs:32-72 | scanning one more node adds its own child count to its senders, and with unique names the other nodes' mentions of a name to that node's receivers |
| SyncWiring.PlannedOutCount | src/concurrency/synchronization_graph.rs:32-72 | after the first i nodes are scanned, a node among them sends on one edge per child and a later node on none |
| SyncWiring.PlannedIntoCount | src/concurrency/synchronization_graph.rs:32-72 | with unique names, after the first i nodes are scanned a node receives one edge per mention of its name by another scanned node |
| SyncWiring.WiredNodeCounts | src/concurrency/synchronization_graph.rs:32-72 | with unique names each runtime node has one child edge per template child and one parent edge per mention of its name by another node |
| SyncGraph.SubmitNode | src/concurrency/synchronization_graph.rs:189-212 | through the trait: succeeds exactly when the name is wanted, fills the slots wanting it, changes nothing else |
| SyncGraph.PushSubmitted | src/concurrency/synchronization_graph.rs:189-212 | through the trait: appends one name to the submitted list and changes nothing else |
| SyncGraph.LowestNamed | src/concurrency/synchronization_graph.rs:196-207 | the first node from k on with the given name, or none |
| SyncGraph.SubmitNodes | src/concurrency/synchronization_graph.rs:196-207 | offers every node last first and pushes each accepted name; each slot ends with the lowest node of its name |
| SyncGraph.ClaimsAfterStep | src/concurrency/synchronization_graph.rs:196-207 | offering one more, lower node updates the slots as a single submission does |
| SyncGraph.SubmittedInReverseOrder | src/concurrency/synchronization_graph.rs:196-207 | the submitted list grows by the accepted names in reverse registration order |
| SyncGraph.NothingWantedNothingOffered | src/task_impl/controlling/mod.rs:34-36 | a dependent that wants no name gets nothing pushed |
| SyncGraph.FilledAfterSubmit | src/concurrency/synchronization_graph.rs:196-211 | after submission every slot is filled exactly when it already was or some node has its name |
| SyncGraph.ClaimsAfterNames | src/concurrency/synchronization_graph.rs:196-207 | a slot that changed holds a node of the wanted name |
| SyncGraph.ConcatSnoc | src/concurrency/synchronization_graph.rs:79-82 | joining one more name at the end appends exactly that name |
| SyncGraph.ConcatAppend | src/concurrency/synchronization_graph.rs:79-82 | joining two name lists is the join of each |
| SyncGraph.JoinNames | src/concurrency/synchronization_graph.rs:79-82 | the `list_str` loop concatenates the submitted names without separator |
| SyncGraph.DistinctNamesDistinctTargets | src/concurrency/synchronization_graph.rs:98-112 | dependents with distinct names are distinct objects |
| SyncGraph.FirstUnfilledStops | src/concurrency/synchronization_graph.rs:74-85 | the claim loop stops at the first dependent left unfilled; all before it are filled |
| SyncGraph.AllFilledIff | src/concurrency/synchronization_graph.rs:74-85 | the claim loop gets through exactly when every dependent is filled |
| SyncGraph.FirstUnfilledIs | src/concurrency/synchronization_graph.rs:74-85 | any position with all earlier dependents filled and itself unfilled (or the end) is that stop |
| SyncGraph.FilledOnceOffered | src/concurrency/synchronization_graph.rs:74-85 | `values_filled` after the offer agrees with the prediction |
| SyncGraph.OfferOne | src/concurrency/synchronization_graph.rs:74-85 | one turn offers every node to one dependent, leaves the others alone, and reports whether it is filled |
| SyncGraph.ClaimInOrder | src/concurrency/synchronization_graph.rs:74-85 | the loop offers in registration order and stops at the first unfilled dependent; later ones are untouched |
| SyncGraph.Report | src/concurrency/synchronization_graph.rs:78-83 | the error names the dependent and its submitted nodes |
| SyncGraph.Launch | src/concurrency/synchronization_graph.rs:87-91 | the executor gets the runtime nodes and the dependents; the edges start with their initial tokens |
| SyncGraph.SubmitAll | src/concurrency/synchronization_graph.rs:74-91 | the claim phase ends in the error for the first unfilled dependent, or in the executor |
| SyncGraph.SynchronizationGraphTemplate.constructor | src/concurrency/synchronization_graph.rs:23-27 | the default graph has no nodes and no dependents |
| SyncGraph.SynchronizationGraphTemplate.PushNode | src/concurrency/synchronization_graph.rs:114-124 | a node whose name is taken is rejected with the duplicate message and the list unchanged; otherwise it is appended |
| SyncGraph.SynchronizationGraphTemplate.PushDependency | src/concurrency/synchronization_graph.rs:98-112 | a dependent whose name is taken is rejected with the duplicate message and the list unchanged; otherwise it is appended |
| SyncGraph.SynchronizationGraphTemplate.BuildAndSubmit | src/concurrency/synchronization_graph.rs:31-92 | a wiring error is returned with no dependent touched; otherwise the claim phase decides; on success the edges carry their initial tokens |
| SyncTasksBasics.U32Objekt.Name | examples/concurrency/synchronization_graph_tasks_basics.rs:36-40 | the objekt's name is its stored name |
| SyncTasksBasics.DoAFlip.constructor | examples/concurrency/synchronization_graph_tasks_basics.rs:190-196 | nothing claimed, nothing submitted, no objekt |
| SyncTasksBasics.DoAFlip.Name | examples/concurrency/synchronization_graph_tasks_basics.rs:55-57 | the stored name |
| SyncTasksBasics.DoAFlip.PushSubmittedNodeList | examples/concurrency/synchronization_graph_tasks_basics.rs:59-61 | appends one name, changes nothing else |
| SyncTasksBasics.DoAFlip.SubmitNode | examples/concurrency/synchronization_graph_tasks_basics.rs:63-75 | takes `flip_prepare` as node A and `flip_break_neck` as node B, refuses everything else |
| SyncTasksBasics.DoAFlip.ValuesFilled | examples/concurrency/synchronization_graph_tasks_basics.rs:81-86 | filled exactly when both nodes are claimed |
| SyncTasksBasics.DoAFlip.Init | examples/concurrency/synchronization_graph_tasks_basics.rs:90-99 | keeps the registry's answer for "ernie" |
| SyncTasksBasics.DoAFlip.Tick | examples/concurrency/synchronization_graph_tasks_basics.rs:101-114 | waits on A and B, halves the shared value unless it is 1, releases A and B; the edges change as specified, and it reports where it would block |
| SyncTasksBasics.DoAFlop.constructor | examples/concurrency/synchronization_graph_tasks_basics.rs:198-203 | nothing claimed, nothing submitted, no objekt |
| SyncTasksBasics.DoAFlop.Name | examples/concurrency/synchronization_graph_tasks_basics.rs:129-131 | the stored name |
| SyncTasksBasics.DoAFlop.PushSubmittedNodeList | examples/concurrency/synchronization_graph_tasks_basics.rs:133-135 | appends one name, changes nothing else |
| SyncTasksBasics.DoAFlop.SubmitNode | examples/concurrency/synchronization_graph_tasks_basics.rs:137-147 | takes `flop_read_nietzsche` as node A, refuses everything else |
| SyncTasksBasics.DoAFlop.ValuesFilled | examples/concurrency/synchronization_graph_tasks_basics.rs:153-158 | filled exactly when node A is claimed |
| SyncTasksBasics.DoAFlop.Init | examples/concurrency/synchronization_graph_tasks_basics.rs:162-169 | keeps the registry's answer for "ernie" |
| SyncTasksBasics.DoAFlop.Tick | examples/concurrency/synchronization_graph_tasks_basics.rs:171-182 | waits on A, adds 1 unless the value is 1 (an overflow panics), releases A; the edges change as specified |
| SyncTasksBasics.Round | examples/concurrency/synchronization_graph_tasks_basics.rs:104-179 | a flip tick followed by a flop tick never overflows, lowers every value above 1, and gives 1 exactly from values up to 3 |
| SyncTasksBasics.UpdateFixpoints | examples/concurrency/synchronization_graph_tasks_basics.rs:104-179 | 1 is a fixpoint of both updates, 0 of the flip update |
| SyncTasksBasics.FlipShrinks | examples/concurrency/synchronization_graph_tasks_basics.rs:104-110 | halving never grows a value and lowers every value from 2 up |
| SyncTasksBasics.OneStays | examples/concurrency/synchronization_graph_tasks_basics.rs:104-179 | once the shared value is 1 it stays 1 |
| SyncTasksBasics.RoundsReachOne | examples/concurrency/synchronization_graph_tasks_basics.rs:101-182 | alternating ticks bring any value v to 1 within max(v, 1) rounds |
| SyncTasksBasics.ErnieTrace | examples/concurrency/synchronization_graph_tasks_basics.rs:261-266 | from 11 the value after the rounds is 6, 4, 3, then 1 |
| TaskControlling.Controlling.constructor | src/task_impl/controlling/mod.rs:19-23 | stores the name and the submitted list |
| TaskControlling.Controlling.Name | src/task_impl/controlling/mod.rs:26-28 | the stored name |
| TaskControlling.Controlling.PushSubmittedNodeList | src/task_impl/controlling/mod.rs:30-32 | appends one name |
| TaskControlling.Controlling.SubmitNode | src/task_impl/controlling/mod.rs:34-36 | never takes a node |
| TaskControlling.Controlling.ValuesFilled | src/task_impl/controlling/mod.rs:42-44 | always filled |
| SyncScenario.ScenarioMatches | examples/concurrency/synchronization_graph_tasks_basics.rs:215-241 | each child name of the example resolves to the one other node with that name |
| SyncScenario.FirstTwoConnects | examples/concurrency/synchronization_graph_tasks_basics.rs:215-231 | the edges out of the two flip nodes are not pre-charged |
| SyncScenario.LastTwoConnects | examples/concurrency/synchronization_graph_tasks_basics.rs:233-241 | the edges out of the flop node are pre-charged, as the flip nodes are entrypoints |
| SyncScenario.ScenarioWiring | examples/concurrency/synchronization_graph_tasks_basics.rs:215-258 | the example wires four edges, and only the two into the flip nodes start with a token |
| SyncScenario.ScenarioLowest | examples/concurrency/synchronization_graph_tasks_basics.rs:215-241 | each wanted name is carried by exactly the expected node |
| SyncScenario.FlipperClaims | examples/concurrency/synchronization_graph_tasks_basics.rs:63-86 | offered the example's nodes, the flipper takes nodes 0 and 1, pushes them last first, and is filled |
| SyncScenario.FlopperClaims | examples/concurrency/synchronization_graph_tasks_basics.rs:137-158 | offered the example's nodes, the flopper takes node 2 and is filled |
| SyncScenario.ScenarioClaims | examples/concurrency/synchronization_graph_tasks_basics.rs:205-259 | the claim phase of the example fills both tasks: the build succeeds with the example's runtime nodes, the flipper holding nodes 0 and 1 and the flopper node 2 |
| SyncScenario.RegisterTasks | examples/concurrency/synchronization_graph_tasks_basics.rs:205-213 | both pushes succeed and register the two tasks in order |
| SyncScenario.Template | examples/concurrency/synchronization_graph_tasks_basics.rs:215-236 | building a template node one child at a time gives the intended declaration |
| SyncScenario.PushNamed | examples/concurrency/synchronization_graph_tasks_basics.rs:219-241 | pushing a new name succeeds and appends it |
| SyncScenario.PushNodes | examples/concurrency/synchronization_graph_tasks_basics.rs:215-241 | the three nodes are pushed in order |
| SyncScenario.SyncTest | examples/concurrency/synchronization_graph_tasks_basics.rs:186-259 | the build succeeds: the flipper holds nodes 0 and 1, the flopper node 2, and the edges start as computed |
| SyncScenario.LookUpErnie | examples/concurrency/synchronization_graph_tasks_basics.rs:261-267 | `init` gives both tasks the same shared cell holding 11 |
| SyncScenario.FirstRound | examples/concurrency/synchronization_graph_tasks_basics.rs:101-182 | the flipper's tick, then the flopper's, both run through, bring 11 to 6 and restore the edges |
| SyncScenario.ScenarioInRange | examples/concurrency/synchronization_graph_tasks_basics.rs:215-258 | the example's runtime nodes name only its four edges |
| SyncScenario.FlipperMovesFirst | examples/concurrency/synchronization_graph_tasks_basics.rs:101-182 | from the built graph the flipper's tick passes while the flopper's blocks on its first parent edge |
| SyncScenario.FlopperMovesNext | examples/concurrency/synchronization_graph_tasks_basics.rs:101-182 | after the flipper's tick the flopper's tick passes and restores the start, while another flip tick blocks |

## Left out

- Threads, `Mutex`, `RwLock` and `Arc`: a lock is plain ownership and a shared handle is an object reference. Channel blocking is reported as a result instead of suspending a thread.
- The task executor (src/concurrency/tasks/task_executor.rs) and `start_task_loops`: the model covers one sequential schedule of the first round (`SyncScenario.FirstRound`) and shows that every other first move blocks. Endless tick loops and thread interleavings are not modelled.
- `TaskControlFlow` values other than `Continue` are never produced by the modelled tasks. The executor's handling of them is not part of this model.
- `Controlling::init` and `Controlling::tick` are `unimplemented!()` and are not modelled.
- `divisions_per_level` in the voxel octree uses `f64::log2`; floating point is not modelled and the field is never read.
- The values of `DefaultHasher::finish` come from a foreign hash. `finish` is a parameter, so concrete material bytes are not computed.
- `println!` and `Debug` output, `Vec::with_capacity` and `node_list`, which only returns the node list for printing.
- The objekt copy of `SortedLevelList` is not part of this model. Its binary search is modelled by the voxel copy's `SortedLevelList.Get`.
- VoxelOctree.HybridOctree.LoadLevel: requires the level volume and its hashing to fit in `u64`, the conditions under which the loop does not panic. It also requires `Key(pos).Some?`, so the `linearize` overflow panic at its start is not modelled here (`GetLevel` returns that panic as an `Err`).
- ObjektOctree.HybridOctree.LoadLevel: requires `linearized * volume` and the level volume to fit in `u64`. It also requires `Key(pos).Some?`, so the `linearize` overflow panic at its start is not modelled here (`GetLevel` returns that panic as an `Err`).
- VoxelOctree.HybridOctree.constructor: requires `level_length > 1` instead of modelling the panic of `new`. The same applies to ObjektOctree.HybridOctree.constructor.
- The `downcast_ref::<A>()` and `clone_box` of `clone_objekt_in_list` become a `downcast` function parameter returning an `Option`; the type parameter `A` is the result type.
- examples/main.rs, the macro demo and lib.rs's module wiring.
