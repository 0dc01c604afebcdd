# Verified model of the Metal graph runtime

The runtime turns a *graph* of GPU work (kernel dispatches, copies, fills, event waits and signals,
barriers, tensor graphs, and two internal workspace nodes) into an *executable graph*, which can be
patched within declared limits and launched any number of times. This project models that path,
`Graph -> GraphExec -> Launch`, with its error and roll-back branches, and proves what every run keeps.

## How the model is built

* **Objects and counts.** A `Buffer`, `Event` or `Arena` value stands for a pointer: an address and the
  fields that never change. The field that does change, the reference count, is kept for all objects by
  `Heaps.Heap`; freeing an object removes its entry, so using a freed object is a call whose
  precondition fails. Contracts speak of the counts as a multiset, `refs`.
* **Mutable structures.** `Builder.Graph`, `Planner.WorkspacePlan`, `Patching.GraphExec` and
  `Launching.Launch` are classes with the fields of the corresponding structs; the scheduler works in place
  on the arrays `indegree`, `queue` and `order`, a launch on its two retained tables. Every method is proved
  against a function or predicate on old and new `State()`, and the theorems are about those.
* **Whole runs.** `World` puts graphs, execs and launches side by side over shared counts, with every
  state-changing call as a step. `World.RunsKeepInvariant` proves the invariant of every run;
  `Runs` draws the consequences. `Steps` runs the method of every call in a state that satisfies the
  invariant and proves that its requirements are met and that what it leaves, whether it succeeds or
  fails, mirrors the step (or the unchanged state). The machine keeps the rules the documentation gives to
  callers, above all that an exec is not destroyed while it is in flight
  (`docs/phases/phase-1-copy-fill-events-barriers.md:26`, `docs/open_questions.md:57`).
* **Failure.** Allocation and backend failures are explicit: a set of faults (`AddFault`, `InstFault`,
  `LaunchFault`, failing record ordinals) or a boolean. All results hold for every choice of them, so
  every roll-back path is covered; adding a node, instantiating and launching fail for such a reason
  only if a request that this very call makes is among the faults.
* **Arithmetic.** `size_t` is 64 bits wide (`Size`). The mask arithmetic is stated as it stands in the
  source on a bitwise `And` and then related to multiples; the addition of buffer offsets wraps and is
  proved not to.
* **Metal.** A launch writes a log: committed command buffers (`Segment`), each a sequence of commands with
  a mark that says whether the host waited for it. The log is apart from the command buffers the launch
  still has, and what a failed launch leaves in it is a function of the exec and of the refused requests
  (`Launching.FailureOf`). Kernels, pipelines and packages are opaque values.
* **Meaning.** `Effects` gives commands a meaning on byte memories, the workspace and a trace of event
  operations and kernel runs, and says apart from it, in terms of the wrappers a caller knows, what each kind
  of node is for. `Descriptors` says which descriptors are to be admitted and what the graph keeps of them,
  `Requests` which patches are to be accepted and what they put there, all of it in terms of fields and sums
  over unbounded integers. The operations are proved to meet these, and `Outcomes` follows a request through
  any run: from a descriptor to the exec and to what its launches do, from a dependency to the order of every
  log, from a patch to the next launch.

| module | content |
|---|---|
| `Prelude`, `Sums`, `Bits` | options and status codes, sums of reference multisets, power-of-two arithmetic |
| `Model`, `Heaps` | node payloads and who refers to what; reference counts |
| `Validation`, `Descriptors`, `Builder` | argument checks; what callers are promised of nodes; the graph and its builders |
| `Topology`, `Kahn` | paths, cycles, schedules, levels; the scheduler |
| `Planner` | the workspace bump allocator |
| `Commands`, `Exec`, `Bounds` | encoding and segmentation; exec state, patches, ICB; memory bounds |
| `Effects`, `Requests` | what commands and nodes do; which patches are accepted and what they grant |
| `Patching`, `Instantiation`, `Launching` | the operations on execs and launches |
| `World`, `Runs`, `Outcomes` | the state machine; theorems about runs; requests followed to their effects |
| `Retention` | what work in flight keeps live, what a caller can let go of, and what it never can |
| `Steps`, `Scenarios` | the methods carry out the steps; runs that reach the defects |

## Where the code falls short

Each has the exact condition, for all inputs, and a run that meets it.

* A launch of an exec that holds nodes but none that encodes a command commits nothing, so synchronize
  refuses it and the in-flight count never drains (`Runs.CompletableIffSomethingEncoded`,
  `Scenarios.BarrierRunIsStuck`). The same befalls a launch destroyed before it was synchronized, which is
  allowed (`docs/phases/phase-10-external-metal-storage.md:82`): `Runs.CompletableIff` says which launches can still be completed.
* The exec of such a launch is pinned: it rejects every patch (`Runs.StuckLaunchBlocksPatches`), may never be
  destroyed, and what it refers to is never released. `Retention.LeastLive` and
  `Retention.AllExecsCanGoIff` say exactly what a caller can still let go of, and `Scenarios.LeakedExec` runs
  into it.
* `docs/phases/phase-1-copy-fill-events-barriers.md:26` says a launch retains the resources of submitted work
  until that completes. Launches that were returned keep this, because their exec cannot go first
  (`Retention.UncompletedKeepsLive`); a launch that failed after committing does not
  (`Retention.RetentionIff`, `Retention.RetentionPromiseIff`, `Scenarios.FailedInFlight`).
* A launch that failed after committing is not counted as in flight either, so its exec can be patched while
  the work runs (`Launching.LeavesWorkIff`, `Retention.PatchesMeetWorkIff`, `Scenarios.FailedInFlight`).
* A contract's alignment is checked on the offset inside the wrapper. On the Metal buffer it holds if and only
  if the wrapper's own base offset is aligned (`Runs.ContractsAlignIff`, `Scenarios.MisalignedRun`).
* Without a recording, an exec reports why instantiation made none until it is launched with the optimization
  off; from then on it keeps reporting that, even after the optimization is enabled again
  (`Exec.StaleReasonIff`, `Exec.DisabledReasonIff`, `Scenarios.StaleReasonRun`).

## Model

| member | source | states |
|---|---|---|
| Bits.AlignmentValidIffPowerOfTwo | src/core/arena.c:7-9 | the test `a != 0 && (a & (a-1)) == 0` accepts exactly the powers of two |
| Bits.AlignUpSizeExact | src/core/arena.c:11-23 | for a valid alignment, mask arithmetic behind the guard yields the least multiple at or above the value, and refuses exactly when that multiple is not a `size_t` |
| Bits.RoundUpIsLeast | src/core/arena.c:16-21 | rounding up over unbounded integers gives a multiple, not below the value, and no multiple at or above the value is smaller |
| Bits.AlignmentDivides | src/core/arena.c:218-223 | of two accepted alignments the smaller divides the larger, which is why comparing them suffices |
| Bits.AlignedBase | src/core/arena.c:218-226 | a base aligned to a larger accepted alignment keeps offsets aligned to a smaller one aligned |
| Heaps.Heap.Allocate | src/metal/metal_backend.mm:715-730 | a new object starts with exactly one reference, all other counts unchanged |
| Heaps.Heap.Retain | src/core/buffer.c:6-10 | adds one reference to a live object and touches no other count |
| Heaps.Heap.Release | src/core/buffer.c:12-31 | takes one reference; the object is freed if and only if that was its last |
| Heaps.Heap.ReleaseArena | src/core/arena.c:110-121 | gives back one arena reference, or nothing when there is no arena |
| Heaps.Heap.ReleaseWork | src/core/graph.c:387-424 | clearing a node, even a partly built one, gives back one reference per filled slot, no more and no less |
| Heaps.Heap.ReleaseWorks | src/core/graph.c:443-460 | clearing a list of nodes gives back the sum of their slots |
| Descriptors.HoldsWhatItNames | src/core/graph.c:387-424 | a node holds references to exactly the objects its fields name, one for each such field |
| Validation.FindResource | src/core/graph.c:66-75 | returns the first contract with the index, and none only if no contract has it |
| Validation.FindBinding | src/core/graph.c:56-64 | returns the first binding with the index, and none only if no binding has it |
| Validation.CheckBindings | src/core/graph.c:561-576 | accepts if and only if every offset is inside its buffer and all indices are pairwise distinct |
| Validation.CheckScalars | src/core/graph.c:584-591 | accepts if and only if every scalar has bytes |
| Validation.CheckResource | src/core/graph.c:242-267 | accepts if and only if access and alignment are valid, the index names a binding, and the range placed at that binding is aligned and inside its buffer |
| Validation.CheckResources | src/core/graph.c:269-295 | accepts if and only if every contract is accepted and their indices are pairwise distinct |
| Validation.CheckAllBindingsHaveRange | src/core/graph.c:297-306 | true if and only if every binding has a contract with a nonzero byte count |
| Validation.ResourceCountBounded | src/core/graph.c:269-295 | accepted contracts are at most as many as bindings, and name only bound indices |
| Validation.PatchableContractsAreBijective | src/core/graph.c:479-499 | when buffer patching may be declared, contracts and bindings are equally many over the same distinct indices |
| Validation.ContractIsTheOneFound | src/core/graph.c:66-75 | on such a dispatch the search by index returns that very contract, with a nonzero range |
| Validation.DivisionGuard | src/core/graph.c:122-140 | `x > SIZE_MAX / k` holds exactly when the true product exceeds `SIZE_MAX` |
| Validation.ShapeByteCount | src/core/graph.c:122-140 | accepts exactly nonempty shapes of nonzero dimensions whose true byte size is a `size_t`, and returns that size |
| Validation.CheckTensor | src/core/graph.c:142-166 | accepts if and only if the descriptor is contiguous, starts at zero offsets, its shape fits, and its resolved byte count covers the shape and lies in the buffer |
| Validation.CheckTensors | src/core/graph.c:811-822 | accepts if and only if every tensor of the array is acceptable |
| Validation.AcceptedTensorFits | src/core/graph.c:142-193 | an accepted tensor, after its default byte count is resolved, has all its elements inside its buffer |
| Validation.Resolve | src/core/graph.c:168-193 | cloning stores the requested byte count or, when zero, the shape's exact size |
| Topology.PathsPointForward | src/core/graph.c:1001-1016 | along any path of edges positions in an accepted order strictly grow |
| Topology.ScheduledIsAcyclic | src/core/graph.c:963-1027 | an edge list with a schedule has no cycle |
| Topology.CycleFrom | src/core/graph.c:1021-1026 | from a set in which every node has a predecessor in the set, an actual cycle inside the set is constructed |
| Topology.LevelBoundsPaths | src/core/graph.c:993-1016 | no path to a node is longer than its level |
| Topology.LevelIsReached | src/core/graph.c:993-1016 | some path to a node is as long as its level, so levels are longest-path depths |
| Topology.SortedByDepth | src/core/graph.c:993-1016 | the accepted order is sorted by longest-path depth: for every path to an earlier entry, a path at least as long to each later one is constructed |
| Topology.SelectionCovers | src/core/graph.c:1021-1026 | distinct indices below `n` number at most `n`, and `n` of them leave none out |
| Kahn.CountEdges | src/core/graph.c:982-991 | true if and only if every edge is in range, and then each counter is the number of edges into its node |
| Kahn.CollectSources | src/core/graph.c:993-999 | the queue starts with exactly the nodes without incoming edges, in index order, and fits |
| Kahn.ScanEdges | src/core/graph.c:1001-1016 | one rescan on behalf of the head keeps counters, queue and levels in step and only appends to the queue |
| Kahn.CountersTake | src/core/graph.c:1006-1011 | in mid-scan the counter about to be decremented is positive, and the accounting of edges seen and unseen stays exact |
| Kahn.ScanTakes | src/core/graph.c:1006-1011 | the target of the current node's edge has a positive counter and is not queued yet |
| Kahn.ScanEnqueues | src/core/graph.c:1010-1014 | when a counter drops to zero the queue has room, and the node joins at the head's level plus one without breaking the order of levels |
| Kahn.FullQueue | src/core/graph.c:1001-1027 | a queue that took in all nodes is a schedule, with levels that are exact and non-decreasing along it |
| Kahn.StarvedQueue | src/core/graph.c:1021-1026 | if nodes are left over, each has a left-over predecessor, and the edges contain a cycle |
| Kahn.Drained | src/core/graph.c:1001-1027 | when the loop ends either all nodes are out in a level-sorted schedule and there is no cycle, or there is one |
| Kahn.TopologicalOrder | src/core/graph.c:963-1027 | given memory, OK if and only if edges are in range and acyclic; on OK `order` is a permutation with every edge forward, sorted by longest-path level |
| Builder.AcceptedIsOk | src/core/graph.c:501-668 | whatever a builder accepts meets, once stored, all node guarantees later stages rely on |
| Builder.AcceptableIffAdmitted | src/core/graph.c:501-928 | the checks of the builders, with their machine sums, guards and bit tests, accept exactly the descriptors whose ranges, contracts, tensors and alignments are right over unbounded integers |
| Builder.ContractAdmitted | src/core/graph.c:242-267 | a contract is accepted exactly when its access is a declared one, its alignment a power of two or zero, and its range at the binding with its index aligned and inside the buffer |
| Builder.TensorAdmitted | src/core/graph.c:142-166 | a tensor is accepted exactly when it is contiguous, of 32-bit floats, at offset zero of an unshifted wrapper, and shape and byte count fit each other and the buffer |
| Builder.StoredKeeps | src/core/graph.c:535-928 | what is stored has the kind and every field of the descriptor, except a maximal grid, contract alignments and tensor sizes that were not given |
| Builder.FlagsOkIffFields | src/core/graph.c:297-329 | flags are accepted exactly when each belongs to a field of the node, and rebinding only where every binding has a contract with bytes |
| Builder.AddedAsGiven | src/core/graph.c:331-354 | an admitted descriptor becomes the last node, with the next identifier, nothing patchable, its fields kept, and all else as it was |
| Builder.WithNodeOk | src/core/graph.c:331-354 | committing an accepted node keeps the graph well formed, identifiers included, and adds exactly the node's references |
| Builder.WithFlagsOk | src/core/graph.c:479-499 | declaring allowed flags keeps the graph well formed and its references unchanged |
| Builder.WithEdgeOk | src/core/graph.c:932-961 | adding an edge between existing nodes keeps the graph well formed and its references unchanged |
| Builder.Graph.AddDispatch | src/core/graph.c:501-668 | adds a node that keeps the descriptor if and only if the descriptor is one to admit and memory lasts; otherwise graph and all counts are as before, however far it got |
| Builder.CheckDispatch | src/core/graph.c:553-606 | accepts if and only if grid limits, bindings, scalars and contracts are all acceptable |
| Builder.BuildDispatch | src/core/graph.c:535-664 | on success the node has every field of the descriptor, but for the defaults of the maximal grid and of contract alignments, and one reference per binding; on any failure it holds none |
| Builder.CopyTables | src/core/graph.c:608-664 | whatever part of the tables was copied, the partly built node accounts for every reference taken |
| Builder.CopyScalarsAndResources | src/core/graph.c:623-664 | copies scalars and contracts without touching a reference, or reports a fault |
| Builder.Graph.AddCopy | src/core/graph.c:670-703 | accepted exactly when both ranges are inside their buffers; failure changes nothing |
| Builder.Graph.AddFill | src/core/graph.c:705-735 | accepted exactly when the range is inside the buffer; failure changes nothing |
| Builder.Graph.AddEvent | src/core/graph.c:737-771 | adds a wait or signal holding one event reference; failure changes nothing |
| Builder.Graph.AddBarrier | src/core/graph.c:773-792 | adds a node without references; failure changes nothing |
| Builder.Graph.AddTensorGraph | src/core/graph.c:794-855 | accepted exactly when there are feeds and targets and all tensors are acceptable; tensors are stored with resolved sizes, failure changes nothing |
| Builder.CloneTensors | src/core/graph.c:204-233 | a failing array clone gives back every buffer it had retained |
| Builder.BuildTensors | src/core/graph.c:830-851 | feeds and targets are both retained or neither |
| Builder.Graph.AddWorkspace | src/core/graph.c:857-885 | accepted exactly for a nonzero size and a power-of-two alignment; failure changes nothing |
| Builder.Graph.AddWorkspaceFill | src/core/graph.c:887-928 | accepted exactly when the workspace request is valid and the destination range is inside its buffer; failure changes nothing |
| Builder.Graph.SetNodePatchFlags | src/core/graph.c:479-499 | refuses a node of another graph; else accepts exactly flags of fields the node has, buffer patching only with a declared range on every binding, and stores these flags and nothing else |
| Builder.Graph.SetArena | src/core/graph.c:462-477 | the new arena gains one reference and the old one loses one; setting the same arena again changes nothing |
| Builder.Graph.AddDependency | src/core/graph.c:932-961 | refuses nodes of other graphs and self-edges, suppresses duplicates, and otherwise appends the edge from the first to the second and nothing else |
| Builder.Graph.Validate | src/core/graph.c:1029-1048 | given memory, OK exactly when the graph is acyclic, and an invalid topology exactly when it has a cycle |
| Builder.Graph.Destroy | src/core/graph.c:443-460 | gives back exactly the references of all nodes and of the arena |
| Planner.CreateArena | src/core/arena.c:75-102 | an arena comes to be exactly for a nonzero size and a power-of-two alignment, with one reference |
| Planner.WorkspacePlan.Append | src/core/arena.c:129-166 | the overflow refusal is exact: it happens if and only if the slice would end beyond `SIZE_MAX`; a refused slice leaves the plan alone |
| Planner.WorkspacePlan.AppendNode | src/core/arena.c:176-208 | keeps the plan the layout of the nodes so far; a refusal is final for the whole schedule |
| Planner.WorkspacePlan.AppendAll | src/core/arena.c:175-208 | absent memory failures, OK exactly when all requests are usable and the unbounded layout fits; then the plan is that layout |
| Planner.WorkspacePlan.Build | src/core/arena.c:168-230 | with memory, OK if and only if some placement of all requests fits `size_t` and, with an arena, its size and alignment; otherwise the plan is empty and the arena's count unchanged |
| Planner.WorkspacePlan.Clear | src/core/arena.c:232-240 | empties the plan and gives back exactly the arena it held |
| Planner.SlicesAreLeast | src/core/arena.c:129-166 | every slice lies at the least multiple of its alignment past the end of the one before |
| Planner.SlicesAreDisjoint | src/core/arena.c:129-166 | earlier slices end before later ones begin, and all end inside the total |
| Planner.SliceIsInside | src/core/arena.c:160 | no slice ends beyond the planned total |
| Planner.LayoutIsPlacement | src/core/arena.c:129-166 | the layout is aligned, ordered and without overlap, and ends at the planned total |
| Planner.LayoutIsSmallest | src/core/arena.c:129-166 | no aligned, ordered, non-overlapping placement ends earlier |
| Planner.MaxAlignmentWithin | src/core/arena.c:161-163 | the planned alignment is attained: a limit holds for it if and only if it holds for every request |
| Planner.FitsIffPlaceable | src/core/arena.c:196-226 | the planner accepts exactly the requests for which some aligned, ordered, non-overlapping placement ends within `size_t` and within the arena, one of exactly that size included, and none asks for more alignment than the arena has |
| Planner.RefusalIsFinal | src/core/arena.c:196-207 | what cannot be placed after a prefix makes the whole list unplaceable, so stopping early is right |
| Planner.AbsoluteAddressesAligned | src/core/arena.c:210-226 | any base aligned to the plan's alignment, or to that of the accepted arena, makes every absolute slice address aligned |
| Planner.OffsetForNode | src/core/arena.c:242-258 | returns the offset of the first record of the node, and none only if it has none |
| Commands.SegmentationPreservesMeaning | src/metal/metal_backend.mm:1223-1429 | the committed command buffers, joined, are the nodes' commands in order; a tensor graph is alone in its buffer; all raw buffers before one were waited on |
| Commands.SegmentsAreCoarsest | src/metal/metal_backend.mm:1324-1349 | raw work is broken into command buffers only where a tensor graph follows, the host waits exactly there, and no command buffer is empty unless it is the only one |
| Commands.SegmentsEndBetweenNodes | src/metal/metal_backend.mm:1224-1429 | every front part of the committed command buffers holds exactly the commands of some first nodes |
| Commands.CommitsSomething | src/metal/metal_backend.mm:1223-1429 | something is committed exactly when there are no nodes or some node encodes a command |
| Commands.CommandHasNode | src/metal/metal_backend.mm:1224-1419 | every command in the log belongs to a node and lies in that node's stretch of the log |
| Commands.CommandsFollowNodes | src/metal/metal_backend.mm:1224-1419 | with distinct identifiers, all commands of an earlier node precede all of a later one |
| Exec.ReplayAgrees | src/metal/metal_backend.mm:1172-1262 | replaying the recording commits the same command buffers as encoding the nodes directly |
| Exec.EligibilityTold | src/metal/metal_backend.mm:496-511 | a dispatch is refused for patchable fields or scalars, then for a binding without a contract that declares bytes and a known access, and otherwise accepted |
| Exec.RecordedIff | src/metal/metal_backend.mm:513-602 | there is a recording if and only if the exec is one dispatch without patchable fields and scalars, every binding has a contract with bytes and a known access, and Metal has indirect command buffers and hands one out; in every other case the counters and the reason say which of these is missing |
| Exec.BuiltIcbOk | src/metal/metal_backend.mm:496-602 | what is recorded is the direct encoding of a single dispatch without scalars and patchable fields and with all accesses declared, and the counters start sound |
| Exec.CountersTellThePath | src/metal/metal_backend.mm:1172-1211 | after a launch every planned group was either used or a fallback; used exactly when there is a recording and the flag is on, and then the recording is what is committed; a reason is reported exactly when it was not used |
| Exec.NothingToCount | src/metal/metal_backend.mm:1173-1185 | launches of an empty exec leave the counters alone |
| Exec.LeftIcbOk | src/metal/metal_backend.mm:1172-1217 | wherever a launch fails, the counters stay sound and flags and recording are untouched |
| Exec.FailureTellsThePath | src/metal/metal_backend.mm:1172-1217 | what the counters say after a launch that failed: unchanged before the reset, a fallback with its reason while encoding unless it was about to replay, used after a replay |
| Exec.StaleReasonIff | src/metal/metal_backend.mm:1176-1183 | without a recording and with the flag on, a launch reports that the optimization was disabled if and only if that was reported before |
| Exec.FallsBackWhenBuilt | src/metal/metal_backend.mm:514-602 | a nonempty exec without a recording starts with a reason |
| Exec.DisabledReasonIff | src/metal/metal_backend.mm:1172-1185 | over a run without a recording, the reported reason is the first one until some launch is begun while the flag is off, and disabled from then on |
| Exec.PatchedWorkIsFrozen | src/core/patch.c:74-359 | an accepted patch changes only fields whose flag was declared, never kinds, indices or sizes; without flags it changes nothing |
| Exec.PatchChangesOnlyDeclared | src/core/patch.c:13-359 | rejection changes nothing; acceptance needs no launch in flight, leaves all other nodes alone, and keeps everything frozen at instantiation |
| Exec.PatchKeepsOk | src/core/patch.c:83-359 | every patch keeps the exec well formed: ranges, contracts, limits and the agreement of the recording |
| Exec.DeclaredRangeCheckIsUnreachable | src/core/patch.c:154-164 | on a well-formed exec the rejection for a missing declared range never happens |
| Exec.PatchExchangesRefs | src/core/patch.c:145-178 | replacing a node's work changes the exec's references by exactly the old and new slots of that node |
| Exec.StepKeepsOk | src/core/patch.c:83-375 | each patch, flag change, launch, failed launch or completion keeps the exec well formed and frozen |
| Exec.RunsStayFrozen | src/core/patch.c:13-375 | the same over any run of such operations: kinds, identifiers, order, sizes, contracts, plan and recording never change |
| Exec.OptimizationIsInvisible | src/core/patch.c:361-375 | after any run, enabling or disabling the optimization does not change what a launch commits |
| Bounds.CreateSharedBuffer | src/metal/metal_backend.mm:692-731 | a buffer comes to be exactly for a nonzero length when memory lasts, and its window is its Metal buffer |
| Bounds.CreateEvent | src/metal/metal_backend.mm:873-902 | an event comes to be exactly when Metal provides one and memory lasts, with one reference |
| Bounds.WrapBuffer | src/metal/metal_backend.mm:743-859 | accepted exactly when all request rules hold; the window of an accepted wrapper lies in its Metal buffer |
| Bounds.OffsetsDoNotWrap | src/metal/metal_backend.mm:24-26 | for sound buffers the machine sum of base and offset is the true sum |
| Bounds.DispatchInBounds | src/metal/metal_backend.mm:1238-1245 | every binding of an encoded dispatch starts inside its Metal buffer |
| Bounds.TensorGraphInBounds | src/metal/metal_backend.mm:359-373 | every feed and target of a tensor graph fits its Metal buffer from the start |
| Bounds.CopiesAndFillsInBounds | src/metal/metal_backend.mm:1264-1304 | copies, fills and workspace fills touch only bytes of their buffers and of the planned workspace |
| Bounds.EncodedInBounds | src/metal/metal_backend.mm:1224-1419 | every copy, fill, workspace and tensor command of a well-formed node stays inside, and every kernel binding starts inside |
| Bounds.DeclaredRangesInBounds | src/core/graph.c:77-90 | a declared nonzero range, placed at its binding, lies in the Metal buffer |
| Bounds.AbsoluteAlignmentIff | src/core/graph.c:92-102 | an accepted contract is aligned on the Metal buffer if and only if the base offset of the wrapper bound at its index is |
| Bounds.SlicesOfNodesDisjoint | src/metal/metal_backend.mm:1396-1407 | the slices of different workspace nodes are disjoint and lie inside a workspace that was allocated |
| Effects.DispatchDoes | src/metal/metal_backend.mm:1227-1262 | a dispatch runs the kernel its descriptor names once, on its bindings at their absolute offsets and indices, its scalars, its grid and its threads |
| Effects.CopyDoes | src/metal/metal_backend.mm:1264-1286 | a copy puts each byte of the source range at the same place of the destination range and changes no other byte |
| Effects.FillDoes | src/metal/metal_backend.mm:1287-1304 | a fill gives every byte of the range the value and changes no other byte |
| Effects.WorkspaceFillDoes | src/metal/metal_backend.mm:1387-1411 | a workspace fill sets its own slice and, by way of it, every byte of the destination range, and nothing else |
| Effects.NodeDoes | src/metal/metal_backend.mm:1224-1419 | executing the commands of any well-formed node over sound buffers does what its kind is for, waits apart from signals, with the values and objects of the node |
| Effects.NodesDo | src/metal/metal_backend.mm:1224-1419 | executing the commands of a list of nodes does their work one after the other |
| Requests.RangeHoldsIff | src/core/graph.c:77-102 | the guarded machine checks of a declared range hold exactly when the range is aligned and inside the buffer |
| Requests.BufferPatchGranted | src/core/patch.c:121-179 | a rebinding is accepted exactly when it is declared, the device agrees, the index is bound and its contract holds for the new buffer; then the first binding with the index is the requested one and all others are as before |
| Requests.ScalarPatchGranted | src/core/patch.c:181-224 | a scalar is accepted exactly when it is declared and has the size of the first scalar with the index; then that one has the requested bytes and all others are as before |
| Requests.NodePatchGranted | src/core/patch.c:83-359 | for each of the six patches, the node accepts exactly the requests its flags, limits, ranges and device allow, and then has the requested value, grid, range, buffers or bytes and every other field as before |
| Requests.PatchGranted | src/core/patch.c:13-359 | a patch is accepted if and only if no launch is in flight and the first node with the identifier accepts it; then that node is as requested and the rest of the exec unchanged, else all of it |
| Patching.GraphExec.Locate | src/core/patch.c:13-72 | rejects while launches are in flight, else finds the first patchable-kind node with the identifier, if any |
| Patching.GraphExec.PatchDispatchGrid | src/core/patch.c:83-119 | accepted exactly when declared and each axis is within the maximum, and then the grid is the requested one and all else as before; otherwise nothing changes; counts untouched |
| Patching.GraphExec.CheckRebind | src/core/patch.c:121-174 | decides acceptance exactly and names the node and binding to change |
| Patching.GraphExec.PatchDispatchBuffer | src/core/patch.c:121-179 | exactly the requested rebinding or none; the new buffer gains and the old loses one reference |
| Patching.GraphExec.PatchDispatchScalar | src/core/patch.c:181-224 | the first scalar with the index gets the requested bytes, of equal size, or nothing changes |
| Patching.GraphExec.CheckCopy | src/core/patch.c:226-265 | decides acceptance exactly and names the node to change |
| Patching.GraphExec.PatchCopyNode | src/core/patch.c:226-277 | the copy becomes the requested one, or nothing changes; references exchanged even when old and new buffers overlap |
| Patching.GraphExec.PatchFillNode | src/core/patch.c:279-332 | the fill becomes the requested one, or nothing changes; references exchanged |
| Patching.GraphExec.PatchEventValue | src/core/patch.c:334-359 | the value becomes the requested one, never the kind, the event or the counts |
| Patching.GraphExec.SetOptimizationFlags | src/core/patch.c:361-375 | refused in flight and for undeclared bits; else the enabled flags are the requested ones and nothing else changes |
| Patching.GraphExec.Destroy | src/metal/metal_backend.mm:1069-1097 | gives back exactly the references of all nodes, complete or not, and of the plan's arena |
| Patching.RebindRefs | src/core/patch.c:168-174 | rebinding one index exchanges exactly one reference |
| Patching.ExchangeRefs | src/core/patch.c:267-276 | taking before giving back leaves the counts at old plus new slots minus old slots, with nothing freed in between that is still needed |
| Instantiation.LookupIsTotal | src/core/arena.c:242-258 | every scheduled workspace node has a record, so the lookup's internal error cannot occur |
| Instantiation.LookupFindsOwnSlice | src/metal/metal_backend.mm:287-304 | the record found for a node has that node's own size and alignment |
| Instantiation.InstantiatedOk | src/metal/metal_backend.mm:927-1067 | instantiating a well-formed graph yields a well-formed exec |
| Instantiation.RecordedWhenMade | src/metal/metal_backend.mm:513-602 | an exec holds a recording if and only if its graph is one dispatch that may be recorded, and Metal offers indirect command buffers |
| Instantiation.CloneDispatch | src/metal/metal_backend.mm:28-90 | a faithful copy, or a partial one that holds exactly the references it took |
| Instantiation.CloneStoredTensors | src/metal/metal_backend.mm:117-152 | a faithful copy, or nothing retained |
| Instantiation.CloneTensorGraph | src/metal/metal_backend.mm:162-180 | a faithful copy, or a partial one that holds exactly the references it took |
| Instantiation.CloneNode | src/metal/metal_backend.mm:245-311 | keeps identifier, flags and work, gives workspace nodes their slice, and never ends in the internal error |
| Instantiation.LoadImpl | src/metal/metal_backend.mm:996-1054 | only dispatches and tensor graphs get a backend object, that of their own library and kernel or package |
| Instantiation.ScheduleNodes | src/metal/metal_backend.mm:936-952 | a level-sorted schedule, or a real cycle, or a memory failure |
| Instantiation.Populate | src/metal/metal_backend.mm:987-1055 | nodes are clones in schedule order; at any failure the exec accounts for every reference taken |
| Instantiation.CheckEligibility | src/metal/metal_backend.mm:496-511 | decides eligibility; on accepted contracts a dispatch is eligible exactly without patchable fields and scalars and with a contract that declares bytes and a known access for every binding |
| Instantiation.BuildIcb | src/metal/metal_backend.mm:514-602 | records the direct encoding of an eligible single dispatch, otherwise counts one fallback with its reason |
| Instantiation.FillExec | src/metal/metal_backend.mm:968-1055 | workspace and clones in place, or a fault and an exec that holds exactly what was taken |
| Instantiation.Finish | src/metal/metal_backend.mm:968-1067 | an exec, or all references back, the plan's arena included |
| Instantiation.Assemble | src/metal/metal_backend.mm:952-1067 | along a given schedule: an exec, or an unplaceable workspace, or a refused request that this graph really makes; all references back unless it succeeds |
| Instantiation.Instantiate | src/metal/metal_backend.mm:927-1067 | on success a snapshot along a depth-sorted schedule with one reference per slot; otherwise the counts are unchanged and the cause is a cycle, an unplaceable workspace, or a refused request that this graph makes |
| Launching.CountSlots | src/metal/metal_backend.mm:1120-1147 | the counting pass finds exactly as many buffer and event slots as the encoding pass will fill |
| Launching.PrefixFits | src/metal/metal_backend.mm:1224-1419 | at every prefix of the encoding pass the tables have room for the next node |
| Launching.HeldIsNodesRefs | src/metal/metal_backend.mm:1120-1147 | one reference per occurrence: a full pair of tables holds exactly the slots of all nodes |
| Launching.Launch.KeepBuffers | src/metal/metal_backend.mm:1199-1206 | appends buffers within the table and retains one reference each |
| Launching.Launch.KeepEvent | src/metal/metal_backend.mm:1306-1320 | appends an event within the table and retains one reference |
| Launching.Launch.CommitAndRetain | src/metal/metal_backend.mm:475-494 | the committed buffer is with the GPU in any case, and the launch keeps it unless its table cannot grow |
| Launching.CommittedGrows | src/metal/metal_backend.mm:1224-1429 | what was committed after some nodes is a prefix of what the whole launch commits |
| Launching.FailureIsPart | src/metal/metal_backend.mm:1224-1429 | what a failed launch committed is a front part of what success commits, at most its last wait missing |
| Launching.LeavesWorkIff | src/metal/metal_backend.mm:1224-1429 | a failed launch leaves an unawaited command buffer behind exactly for the named requests: after a replay was encoded, in the final table, after the first tensor graph, or in its own table or after its encoding |
| Launching.Launch.Synchronize | src/metal/metal_backend.mm:1436-1460 | refuses a launch that committed nothing; the first effective call takes one off the count, later ones nothing |
| Launching.Launch.Destroy | src/metal/metal_backend.mm:1462-1497 | gives back exactly the references the tables hold |
| Launching.EncodeDispatch | src/metal/metal_backend.mm:1227-1262 | the command carries the node's pipeline, absolute binding offsets, scalars, grid and threads |
| Launching.EncodeRaw | src/metal/metal_backend.mm:1225-1321 | a raw node contributes exactly its own commands, those whose execution does its work by `Effects.NodeDoes`, or a backend refusal |
| Launching.Drain | src/metal/metal_backend.mm:1325-1349 | open work is committed and waited on, or a request fails, and either way the log says what was committed and waited for |
| Launching.EncodeTensor | src/metal/metal_backend.mm:1324-1382 | drains, then commits the tensor graph alone, exactly when all requests are met; references are all taken or none, and the log is told by the requests that were refused |
| Launching.NodeStep | src/metal/metal_backend.mm:1224-1419 | one node of the encoding pass keeps tables and counts in step, fails exactly when a request of that node is refused, and leaves the log that goes with it |
| Launching.EncodeDirect | src/metal/metal_backend.mm:1223-1429 | exactly when all requests of the nodes are met, the whole log and exactly full tables; otherwise the launch holds what was taken, and the log is that of the first request refused |
| Launching.RetainRecorded | src/metal/metal_backend.mm:1199-1206 | replay retains the same references as direct encoding |
| Launching.EncodeReplay | src/metal/metal_backend.mm:1187-1222 | a replay commits the recording alone and only then fails for the table; its counters say used |
| Launching.BeginIcb | src/metal/metal_backend.mm:1172-1185 | nothing counts as used yet, and all planned groups count as fallbacks, with a reason, unless the recording is about to be replayed |
| Launching.EncodeLaunch | src/metal/metal_backend.mm:1172-1429 | the launch takes the path its recording and flags say, fails exactly when a request on that path is refused, and has then committed what this request implies |
| Launching.LaunchExec | src/metal/metal_backend.mm:1099-1434 | succeeds exactly when every request this exec makes is met: segments committed and kept, both tables exactly full, one more in flight. A failure gives all references back; the counters and the log it leaves are those of the first request refused |
| World.CallKeepsCounts | src/core/buffer.c:6-31 | every call keeps each count equal to its handles plus its slots in live graphs, execs and launches |
| World.CallKeepsGraphs | src/core/graph.c:331-354 | every call keeps all graphs well formed |
| World.CallKeepsExecs | src/core/patch.c:13-375 | every call keeps all execs well formed and true to the graph they were made from |
| World.CallKeepsRefs | src/metal/metal_backend.mm:245-311 | calls other than creation take references only to objects already live, so created-object guarantees persist |
| World.CallKeepsFlights | src/metal/metal_backend.mm:1430-1460 | every call keeps the in-flight count equal to the launches returned and not completed, and keeps their execs |
| World.CallKeepsAttempts | src/metal/metal_backend.mm:1099-1434 | every call keeps all launches, returned and failed, records of sound execs, with the tables and segments that go with them |
| World.CallKeepsNodes | src/core/patch.c:13-25 | every call keeps the nodes and plan of an exec in flight those its launches were made from |
| World.CompletingDecrements | src/metal/metal_backend.mm:1453-1458 | the guard against a zero count is never what stops a decrement |
| World.CallKeepsInvariant | src/core/graph.c:387-424 | every enabled call keeps the whole invariant |
| World.RunsKeepInvariant | src/metal/metal_backend.mm:1430-1497 | every run from the empty runtime ends in a state with the whole invariant |
| Runs.ObjectsLiveWhileHeld | src/core/buffer.c:6-31 | after every run an object is live exactly when a handle or a live slot refers to it, and its count is the number of those |
| Runs.ExecNodesReferToLiveObjects | src/core/patch.c:267-276 | after every run whatever an exec's nodes name, patched or not, is live |
| Runs.LaunchesKeepObjectsLive | src/metal/metal_backend.mm:1462-1485 | what a launch retained is live until the launch is destroyed |
| Runs.ExecsStayTrueToTheirGraph | src/core/patch.c:13-359 | after every run an exec's nodes are those of its graph in schedule order, changed in declared fields only |
| Runs.ExecsAreDepthSorted | src/core/graph.c:993-1016 | after every run an exec holds its nodes in order of longest-path depth |
| Runs.CountersAreTruthful | src/metal/metal_backend.mm:1172-1211 | in every reachable state the counters after the next launch say used exactly when there is a recording and the flag is on |
| Runs.RecordingsAreEligible | src/metal/metal_backend.mm:496-511 | in every reachable state an exec with a recording is a single dispatch without patchable fields and scalars, with the access of every binding declared |
| Runs.ReplayIsInvisible | src/metal/metal_backend.mm:1172-1262 | in every reachable state replay and direct encoding commit the same |
| Runs.DeclaredRangeRejectionNeverHappens | src/core/patch.c:154-164 | the rejection for a missing declared range is dead code in every run |
| Runs.DependenciesHoldInCommitLog | src/core/graph.c:932-1027 | for every path of dependencies, also through nodes that encode nothing, the commands of its first node precede those of its last in the commit log |
| Runs.CommitLogIsWellSegmented | src/metal/metal_backend.mm:1223-1429 | in every reachable state a launch commits each node's commands once, in order, tensor graphs alone and after waits |
| Runs.CommittedCommandsInBounds | src/metal/metal_backend.mm:1224-1419 | in every reachable state what a launch would commit stays in its buffers and the workspace, kernels as far as their bindings start |
| Runs.AttemptIsSound | src/metal/metal_backend.mm:1099-1434 | whatever launch was made, its log is a front part of what launching the exec it was made from commits |
| Runs.DependenciesHoldInEveryLog | src/core/graph.c:932-1027 | in what any launch committed, returned or failed, the commands along a path of dependencies are in order |
| Runs.EveryLogIsWellSegmented | src/metal/metal_backend.mm:1223-1429 | what any launch committed is a front part of its nodes' commands, tensor graphs alone and after waits |
| Runs.EveryLogIsInBounds | src/metal/metal_backend.mm:1224-1419 | what any launch committed stays in its buffers and the workspace, kernels as far as their bindings start |
| Runs.DeclaredRangesStayInBounds | src/core/patch.c:145-174 | in every reachable state declared dispatch ranges lie in their Metal buffers, after rebinding too |
| Runs.ContractsAlignIff | src/core/graph.c:92-102 | in every reachable state an accepted contract is aligned on the Metal buffer if and only if the base offset of its wrapper is |
| Runs.WorkspaceSlicesAreDisjoint | src/metal/metal_backend.mm:1396-1407 | in every reachable state different workspace nodes have disjoint slices, of the sizes they asked for, in an allocated workspace |
| Runs.WorkspaceAddressesAligned | src/core/arena.c:210-226 | in every reachable state a base aligned as the plan or an attached arena asks makes the slice of every workspace node aligned |
| Runs.InFlightCountIsExact | src/core/patch.c:13-25 | the count is the number of launches not completed, and a patch is accepted only if all are |
| Runs.SynchronizeIsIdempotent | src/metal/metal_backend.mm:1436-1460 | the first effective synchronize takes exactly one off the count, a repeated one changes nothing |
| Runs.CompletableIffSomethingEncoded | src/metal/metal_backend.mm:1421-1441 | a launch can be completed if and only if the exec is empty or some node encodes a command |
| Runs.CompletableIff | src/metal/metal_backend.mm:1436-1460 | a launch can still be completed by some continuation of the run if and only if it was not destroyed and committed something |
| Runs.StuckLaunchBlocksPatches | src/metal/metal_backend.mm:1436-1497 | a launch that committed nothing, or was destroyed uncompleted, is not completed in any continuation; its exec is there to stay and rejects every patch as in flight |
| Outcomes.GraphOnlyGrows | src/core/graph.c:331-354 | until a graph is destroyed, its nodes keep place, identifier and work, and its edges stay |
| Outcomes.AddedNodeReachesExec | src/metal/metal_backend.mm:245-311 | a node that was added is in every exec made of the graph later, under its identifier, with the fields of its descriptor |
| Outcomes.AddedEdgeOrdersEveryLog | src/core/graph.c:932-1027 | once a dependency was added, in every launch, returned or failed, of every exec made of the graph later, all commands of the first node precede all of the second |
| Outcomes.PatchReachesNextLaunch | src/core/patch.c:83-359 | whatever comes between, other than patches, the next launch starts from the nodes as an accepted patch requested them, or as they were before a rejected one |
| Outcomes.LaunchDoesItsNodes | src/metal/metal_backend.mm:1099-1434 | in every run, executing what a returned launch committed, by replay or directly, does the work of its nodes one after the other |
| Outcomes.AddedNodeIsDone | src/metal/metal_backend.mm:1099-1434 | in every run, work added to a graph is done, as its descriptor says, by every launch of every exec made of the graph later, unless a patch came between |
| Outcomes.AttemptDoesFirstNodes | src/metal/metal_backend.mm:1224-1429 | in every run, what any launch committed, failed ones included, is the whole work of some first nodes and nothing of the others |
| Outcomes.LaunchHoldsWhatItsNodesName | src/metal/metal_backend.mm:1121-1165 | until it is destroyed, a launch holds exactly the objects that fields of its nodes named when it was launched, and they are live |
| Outcomes.GraphHoldsWhatItsNodesName | src/core/graph.c:387-424 | in every run the objects that fields of a graph's nodes name are live |
| Outcomes.ExecHoldsWhatItsNodesName | src/core/patch.c:267-276 | in every run the objects that fields of an exec's nodes name, patched or not, are live and sound |
| Retention.UncompletedKeepsLive | src/metal/metal_backend.mm:1436-1497 | in every reachable state all that an uncompleted launch was given is live, whether or not the launch was destroyed |
| Retention.PinnedIsNeverReleased | src/metal/metal_backend.mm:1453-1458 | in every continuation the exec of a launch that cannot be completed is still there, and with it all it refers to |
| Retention.CallerCanLetGo | src/metal/metal_backend.mm:1462-1497 | from wherever a run leads, keeping the documented rules, the caller can bring the live objects down to those that pinned execs refer to |
| Retention.LeastLive | src/metal/metal_backend.mm:1453-1497 | what pinned execs refer to is the least that can be live in any continuation, and some continuation reaches it |
| Retention.AllExecsCanGoIff | src/metal/metal_backend.mm:1069-1097 | the caller can get rid of all its execs if and only if none has a launch that cannot be completed |
| Retention.RetentionIff | src/metal/metal_backend.mm:1462-1485 | what in-flight work names is live for as long as it is in flight, in every continuation, if and only if its launch was returned or a pinned exec refers to the object |
| Retention.RetentionPromiseIff | docs/phases/phase-1-copy-fill-events-barriers.md:26 | the documented retention until completion is kept if and only if all that failed launches left running is referred to by pinned execs |
| Retention.PatchesMeetWorkIff | src/core/patch.c:13-25 | a patch is accepted while command buffers of its exec may be running exactly when a launch of it failed at a request that leaves work behind |
| Scenarios.OneNodeRun | src/metal/metal_backend.mm:927-1067 | any acceptable node outside the workspace kinds can be built and instantiated by a run of four calls |
| Scenarios.BarrierRunIsStuck | src/metal/metal_backend.mm:1421-1441 | a run launches a single barrier: synchronize refuses the launch, and it is stuck |
| Scenarios.MisalignedRun | src/core/graph.c:92-102 | a run instantiates a dispatch whose contract asks for alignment 4 and is bound at absolute offset 1 |
| Scenarios.LeakedExec | src/metal/metal_backend.mm:1462-1472 | a run destroys a launch before waiting for it; the launch holds nothing, but in every continuation its exec and the buffer are still there |
| Scenarios.FailedInFlight | src/metal/metal_backend.mm:1421-1428 | with no memory for the table of committed buffers, a run ends with the fill of a failed launch running, its buffer not kept live, and its value open to a patch |
| Scenarios.StaleReasonRun | src/metal/metal_backend.mm:1176-1183 | a run ends with the optimization enabled and its last launch reporting that it was disabled |
| Steps.MethodsAreCallable | src/core/graph.c:387-424 | in every reachable state the liveness requirements of all methods are met |
| Steps.Create | src/metal/metal_backend.mm:692-902 | creating a buffer, event or arena is the step on success and no change on failure |
| Steps.Drop | src/core/buffer.c:12-33 | giving back a handle is the step, and frees the object exactly when nothing else refers to it |
| Steps.NewGraph | src/core/graph.c:426-441 | a new graph is the step |
| Steps.BuilderTakesStep | src/core/graph.c:501-928 | what any builder promises is the step on success and no change on failure |
| Steps.Add | src/core/graph.c:501-928 | each of the eight builders, run on live objects, carries out the step or changes nothing |
| Steps.Connect | src/core/graph.c:932-961 | adding a dependency carries out the step or changes nothing |
| Steps.Declare | src/core/graph.c:479-499 | declaring patch flags carries out the step or changes nothing |
| Steps.Attach | src/core/graph.c:462-477 | attaching an arena carries out the step |
| Steps.DropGraph | src/core/graph.c:443-460 | destroying a graph carries out the step |
| Steps.InstantiateTakesStep | src/metal/metal_backend.mm:927-1067 | a successful instantiation under a new name is an enabled step with this effect |
| Steps.Make | src/metal/metal_backend.mm:927-1067 | instantiating carries out the step, and after a failure state and counts are those before |
| Steps.PatchTakesStep | src/core/patch.c:83-359 | what the patch methods promise is the step; a rejected one is no change |
| Steps.Patch | src/core/patch.c:83-359 | each of the six patch operations carries out the step, is accepted exactly when the request is one to accept, and then grants it |
| Steps.Toggle | src/core/patch.c:361-375 | setting optimization flags carries out the step, refused or not |
| Steps.DropExec | src/metal/metal_backend.mm:1069-1097 | destroying an exec that is not in flight carries out the step |
| Steps.LaunchTakesStep | src/metal/metal_backend.mm:1430-1433 | what a returned launch promises is the step: its tables, segments and references |
| Steps.FailedLaunchTakesStep | src/metal/metal_backend.mm:1421-1428 | what a failed launch promises is the failing step: ICB counters and the commands left behind |
| Steps.Start | src/metal/metal_backend.mm:1099-1434 | launching carries out the launch step or, when a request is refused, the failing step for exactly these requests |
| Steps.SynchronizeTakesStep | src/metal/metal_backend.mm:1436-1460 | on a launch the caller has, synchronizing is enabled and changes something only the first time and only if something was committed |
| Steps.Finish | src/metal/metal_backend.mm:1436-1460 | synchronizing carries out the step, whether it waits, refuses or finds the launch completed |
| Steps.DropLaunch | src/metal/metal_backend.mm:1462-1497 | destroying a launch carries out the step |

## Left out

- Metal, Objective-C and MPSGraph calls, package files and pipeline compilation: each can fail, and what they return is an opaque value; kernel semantics are not modelled.
- Error objects, messages and stages, version strings, null-pointer checks and ABI size fields; the patch rejections are told apart by a model-only code, the status is always an invalid argument.
- Growth of tables by doubling: tables are sequences, and growing one is a request that may fail.
- Reference counts are unbounded, not 32 bits wide; counting sums, node and edge counts do not wrap.
- The reference count is kept in the table of `Heaps.Heap` rather than as a field of each object.
- Automatic retention of Metal objects, including a launch's hold on the workspace and on command buffers.
- The descriptor of the indirect command buffer, whose bind count follows the largest binding index.
- Owner callbacks of wrapped buffers: only the rules on their presence are modelled.
- Device and stream objects; a device is a number that buffers and execs carry.
- Which of its command buffers the GPU has finished: a committed one counts as running until the host waited for it.
- The unsupported status of builds without MPSGraph: encoding a tensor graph can fail as a backend error.
- Bounds.DispatchInBounds: covers where bindings start; what a kernel reads beyond is bounded only by declared ranges.
- Bounds.EncodedInBounds: the same holds for its kernels.
- Runs.CommittedCommandsInBounds: the same holds for its kernels.
- Runs.EveryLogIsInBounds: the same holds for its kernels.
- Runs.WorkspaceAddressesAligned: assumes an aligned base, because the code does not check what Metal returns.
- Copies and fills check neither device, mutability nor overlap in the code, so nothing is claimed about these; `Effects.CopyDoes` reads a source that overlaps its destination as it was before.
- Effects are those of executing a log in order; what the GPU may overlap or reorder is not modelled, and what kernels and tensor graphs write is an arbitrary function of their arguments and of memory.
- Caller misuse (destroying an exec in flight, using destroyed objects, concurrent calls) is excluded by requirements and enabling conditions. Several launches of one exec in flight are allowed, although the documentation asks for one.
- Field getters, origin information and diagnostics, the adapters for other languages and the unsupported backend: plain copies and wrappers.
