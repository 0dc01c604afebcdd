/**
 The methods carry out the steps: for every call of the machine, the method that implements it is run in
 a state that satisfies the invariant. The method's requirements are met there, and whether it succeeds
 or fails, the objects and counts it leaves mirror the state that the step says.
 */
module Steps {
  import opened Prelude
  import opened Model
  import opened Heaps
  import opened Validation
  import opened Planner
  import opened Builder
  import opened Commands
  import opened Exec
  import opened Requests
  import opened Bounds
  import opened Patching
  import opened Instantiation
  import opened Launching
  import opened World

  // ---- on values ----

  /** In any state a run reaches, the methods' requirements on live references are met. */
  lemma MethodsAreCallable(calls: seq<Call>)
    requires Legal(calls)
    ensures var w := After(calls);
      && (forall g :: g in w.graphs ==> GraphOk(w.graphs[g]) && GraphRefs(w.graphs[g]) <= w.refs)
      && (forall e :: e in w.execs ==> ExecOk(w.execs[e].state) && ExecRefs(w.execs[e].state) <= w.refs)
      && (forall l :: l in w.launches ==> LaunchRefs(w.launches[l]) <= w.refs)
      && (forall r :: r in w.handles ==> r in w.refs)
  {
    hide After, Legal, Expected, RefsOk, FlightsOk, GraphOk, ExecOk, SnapshotOk, GraphRefs, ExecRefs, LaunchRefs;
    RunsKeepInvariant(calls);
    var w := After(calls);
    forall g | g in w.graphs ensures GraphRefs(w.graphs[g]) <= w.refs { GraphShareIsCounted(w, g); }
    forall e | e in w.execs ensures ExecRefs(w.execs[e].state) <= w.refs { ExecShareIsCounted(w, e); }
    forall l | l in w.launches ensures LaunchRefs(w.launches[l]) <= w.refs { LaunchShareIsCounted(w, l); }
    forall r | r in w.handles ensures r in w.refs { HandlesAreCounted(w, r); }
  }

  /** What a builder's contract promises is the step on success and no change otherwise. */
  lemma BuilderTakesStep(
      w: State, g: nat, work: Work, faults: set<AddFault>, status: Status, graph: GraphState, refs: multiset<Ref>)
    requires g in w.graphs && forall r :: r in WorkSlots(work) ==> r in w.refs
    requires AddOutcome(work, faults, status, w.graphs[g], graph, w.refs, refs)
    ensures status == Ok ==>
              Enabled(w, AddNode(g, work)) && Apply(w, AddNode(g, work)) == PutGraph(w, g, graph).(refs := refs)
    ensures status != Ok ==> PutGraph(w, g, graph).(refs := refs) == w
  {
    hide Acceptable, WorkSlots, WorkRefs, Stored;
    if status != Ok {
      assert w.graphs[g := w.graphs[g]] == w.graphs;
    }
  }

  lemma PutGraphReads(w: State, g: nat, graph: GraphState)
    ensures g in PutGraph(w, g, graph).graphs && PutGraph(w, g, graph).graphs[g] == graph
  {
  }

  lemma RejectedPatchChangesNothing(s: ExecState, id: NodeId, p: Patch, refs: multiset<Ref>)
    requires RejectionOf(PlanPatch(s, id, p)).Some?
    ensures AfterPatch(s, id, p) == s && RefsAfterPatch(s, id, p, refs) == refs
  {
    hide PlanPatch, WorkRefs, WithWork;
  }

  lemma UnchangedExec(w: State, e: nat)
    requires e in w.execs
    ensures PutExec(w, e, w.execs[e].state) == w
  {
    assert w.execs[e := w.execs[e].(state := w.execs[e].state)] == w.execs;
  }

  /** A patch method's contract, accepted or rejected, is the patch step. */
  lemma PatchTakesStep(
      w: State, e: nat, id: NodeId, p: Patch, rejection: Option<PatchError>, state: ExecState, refs: multiset<Ref>)
    requires e in w.execs && forall r :: r in PatchRefs(p) ==> r in w.refs
    requires PatchOutcome(id, p, rejection, w.execs[e].state, state, w.refs, refs)
    ensures Enabled(w, PatchExec(e, id, p)) && Apply(w, PatchExec(e, id, p)) == PutExec(w, e, state).(refs := refs)
    ensures rejection.Some? ==> Apply(w, PatchExec(e, id, p)) == w
  {
    hide PlanPatch, PatchRefs, AfterPatch, RefsAfterPatch, RejectionOf;
    if rejection.Some? {
      RejectedPatchChangesNothing(w.execs[e].state, id, p, w.refs);
      UnchangedExec(w, e);
    }
  }

  /** A returned launch's contract is the launch step: its tables, its segments, its references. */
  lemma LaunchTakesStep(w: State, e: nat, l: nat, launch: LaunchRecord, state: ExecState, refs: multiset<Ref>)
    requires e in w.execs && l !in w.launches
    requires launch.exec == e && launch.from == w.execs[e] && !launch.completed && launch.alive
    requires launch.segments == LaunchSegments(w.execs[e].state)
    requires launch.buffers == AllBuffers(w.execs[e].state.nodes) && launch.events == AllEvents(w.execs[e].state.nodes)
    requires state == AfterLaunch(w.execs[e].state)
    requires refs == w.refs + HeldRefs(launch.buffers, launch.events)
    ensures Enabled(w, LaunchExec(e, l))
    ensures Apply(w, LaunchExec(e, l))
         == PutExec(w, e, state).(launches := w.launches[l := launch], refs := refs)
    ensures refs == w.refs + WorksRefs(ExecWorks(w.execs[e].state.nodes))
  {
    hide LaunchSegments, AllBuffers, AllEvents, HeldRefs, WorksRefs, AfterLaunch;
    HeldIsNodesRefs(w.execs[e].state.nodes);
  }

  /** What the callers of the methods get from the invariant. */
  lemma GraphIsUsable(w: State, g: nat)
    requires Invariant(w) && g in w.graphs
    ensures GraphOk(w.graphs[g]) && GraphRefs(w.graphs[g]) <= w.refs
  {
    hide GraphOk, GraphRefs, Expected, ExecsOk, RefsOk, FlightsOk, AttemptsOk, NodesKept;
    GraphShareIsCounted(w, g);
  }

  lemma ExecIsUsable(w: State, e: nat)
    requires Invariant(w) && e in w.execs
    ensures ExecOk(w.execs[e].state) && ExecRefs(w.execs[e].state) <= w.refs
  {
    hide ExecOk, SnapshotOk, ExecRefs, Expected, GraphsOk, RefsOk, FlightsOk, AttemptsOk, NodesKept;
    ExecShareIsCounted(w, e);
  }

  lemma LaunchIsUsable(w: State, l: nat)
    requires Invariant(w) && l in w.launches
    ensures LaunchRefs(w.launches[l]) <= w.refs
    ensures !w.launches[l].completed ==> w.launches[l].exec in w.execs
  {
    hide LaunchRefs, Expected, GraphsOk, ExecsOk, RefsOk, AttemptsOk, NodesKept;
    LaunchShareIsCounted(w, l);
  }

  /** The call is enabled, and this is what it leads to. */
  ghost predicate IsStep(w: State, c: Call, w': State) {
    Enabled(w, c) && w' == Apply(w, c)
  }

  // ---- objects and handles ----

  /** The counts are those of the state. */
  ghost predicate Mirrors(w: State, heap: Heap)
    reads heap
  {
    heap.Valid() && heap.refs == w.refs
  }

  /** The ways to create a counted object; `address` is where its memory turns out to be. */
  datatype Creation =
    | SharedBuffer(device: nat, address: nat, handle: nat, length: Size)
    | WrappedBuffer(device: nat, address: nat, desc: WrapDesc)
    | NewEvent(address: nat)
    | NewArena(address: nat, size: Size, alignment: Size)

  function CreatedRef(c: Creation): Ref {
    match c
    case SharedBuffer(device, address, handle, length) =>
      BufferRef(Buffer(address, device, Metal(handle, length), length, 0))
    case WrappedBuffer(device, address, d) => BufferRef(Buffer(address, device, d.metal, d.byteLength, d.byteOffset))
    case NewEvent(address) => EventRef(Event(address))
    case NewArena(address, size, alignment) => ArenaRef(Arena(address, size, alignment))
  }

  lemma CreateTakesStep(w: State, r: Ref)
    requires r !in w.refs && RefOk(r)
    ensures Enabled(w, CreateObject(r))
    ensures Apply(w, CreateObject(r)) == w.(refs := w.refs + multiset{r}, handles := w.handles + multiset{r})
  {
    hide RefOk, Instantiated, Acceptable, LaunchFails, AfterSynchronize, AfterPatch;
  }

  /** Creating an object, by whichever of the four calls. */
  method Create(ghost w: State, heap: Heap, c: Creation, available: bool, metalCreates: bool, allocates: bool)
    returns (status: Status, ghost w': State)
    requires Mirrors(w, heap) && CreatedRef(c) !in heap.counts
    modifies heap
    ensures status == Ok ==>
              IsStep(w, CreateObject(CreatedRef(c)), w')
    ensures status != Ok ==> w' == w
    ensures Mirrors(w', heap)
  {
    hide Enabled, Apply, WrapOk;
    match c {
    case SharedBuffer(device, address, handle, length) =>
      var made, _ := CreateSharedBuffer(heap, device, address, handle, length, metalCreates, allocates);
      status := made;
    case WrappedBuffer(device, address, d) =>
      var made, _ := WrapBuffer(heap, device, d, address, allocates);
      status := made;
    case NewEvent(address) =>
      var made, _ := CreateEvent(heap, address, available, metalCreates, allocates);
      status := made;
    case NewArena(address, size, alignment) =>
      var made, _ := CreateArena(heap, address, size, alignment, allocates);
      status := made;
    }
    w' := w;
    if status == Ok {
      CreateTakesStep(w, CreatedRef(c));
      w' := Apply(w, CreateObject(CreatedRef(c)));
    }
  }

  /** Giving back a handle. */
  method Drop(ghost w: State, heap: Heap, r: Ref) returns (freed: bool, ghost w': State)
    requires Invariant(w) && Mirrors(w, heap) && r in w.handles
    modifies heap
    ensures IsStep(w, DropHandle(r), w') && Mirrors(w', heap)
    ensures freed <==> r !in w'.refs
  {
    hide GraphsOk, ExecsOk, RefsOk, FlightsOk, Expected, AttemptsOk, NodesKept;
    HandlesAreCounted(w, r);
    freed := heap.Release(r);
    DropTakesStep(w, r);
    w' := Apply(w, DropHandle(r));
  }

  lemma DropTakesStep(w: State, r: Ref)
    requires r in w.handles
    ensures Enabled(w, DropHandle(r))
    ensures Apply(w, DropHandle(r)) == w.(refs := w.refs - multiset{r}, handles := w.handles - multiset{r})
  {
    hide Instantiated, Acceptable, LaunchFails, AfterSynchronize, AfterPatch;
  }

  // ---- graphs ----

  method NewGraph(ghost w: State, g: nat) returns (graph: Graph, ghost w': State)
    requires g !in w.graphs
    ensures IsStep(w, CreateGraph(g), w')
    ensures fresh(graph) && g in w'.graphs && w'.graphs[g] == graph.State() && w'.refs == w.refs
  {
    hide Instantiated, Acceptable, LaunchFails, AfterSynchronize, AfterPatch;
    graph := new Graph();
    w' := Apply(w, CreateGraph(g));
  }

  /** Adding a node, by whichever of the builders. */
  method Add(ghost w: State, g: nat, graph: Graph, heap: Heap, work: Work, faults: set<AddFault>)
    returns (status: Status, ghost w': State)
    requires Mirrors(w, heap) && g in w.graphs && w.graphs[g] == graph.State()
    requires forall r :: r in WorkSlots(work) ==> r in w.refs
    modifies graph, heap
    ensures status == Ok ==> IsStep(w, World.AddNode(g, work), w')
    ensures status != Ok ==> w' == w
    ensures Mirrors(w', heap) && g in w'.graphs && w'.graphs[g] == graph.State()
  {
    hide Enabled, Apply, AddOutcome, WorkSlots, Heap.Valid;
    SlotsByKind(work);
    match work {
    case Dispatch(d) => status := graph.AddDispatch(heap, d, faults);
    case Copy(c) => status := graph.AddCopy(heap, c, faults);
    case Fill(f) => status := graph.AddFill(heap, f, faults);
    case EventWait(e, value) => status := graph.AddEvent(heap, false, e, value, faults);
    case EventSignal(e, value) => status := graph.AddEvent(heap, true, e, value, faults);
    case Barrier => status := graph.AddBarrier(heap, faults);
    case TensorGraph(package, feeds, targets) => status := graph.AddTensorGraph(heap, package, feeds, targets, faults);
    case Workspace(size, alignment) => status := graph.AddWorkspace(heap, size, alignment, faults);
    case WorkspaceFill(size, alignment, byte, dst, dstOffset) =>
      status := graph.AddWorkspaceFill(heap, size, alignment, byte, dst, dstOffset, faults);
    }
    BuilderTakesStep(w, g, work, faults, status, graph.State(), heap.refs);
    PutGraphReads(w, g, graph.State());
    w' := PutGraph(w, g, graph.State()).(refs := heap.refs);
  }

  lemma GraphCallTakesStep(w: State, g: nat, c: Call)
    requires g in w.graphs
    ensures c.AddEdge? && c.g == g && c.before != c.after
            && c.before < |w.graphs[g].nodes| && c.after < |w.graphs[g].nodes| ==>
              Enabled(w, c) && Apply(w, c) == PutGraph(w, g, WithEdge(w.graphs[g], c.before, c.after))
    ensures c.DeclareFlags? && c.g == g && c.index < |w.graphs[g].nodes|
            && FlagsOk(w.graphs[g].nodes[c.index].work, c.flags) ==>
              Enabled(w, c) && Apply(w, c) == PutGraph(w, g, WithFlags(w.graphs[g], c.index, c.flags))
    ensures c.AttachArena? && c.g == g && ArenaRef(c.arena) in w.refs ==>
              && Enabled(w, c)
              && Apply(w, c) == PutGraph(w, g, w.graphs[g].(arena := Some(c.arena)))
                   .(refs := w.refs + ArenaRefs(Some(c.arena)) - ArenaRefs(w.graphs[g].arena))
    ensures c.DestroyGraph? && c.g == g ==>
              Enabled(w, c) && Apply(w, c) == w.(graphs := w.graphs - {g}, refs := w.refs - GraphRefs(w.graphs[g]))
  {
    hide Instantiated, Acceptable, FlagsOk, LaunchFails, AfterSynchronize, AfterPatch, GraphRefs, ArenaRefs,
         WithEdge, WithFlags;
  }

  method Connect(ghost w: State, g: nat, graph: Graph, from: NodeHandle, to: NodeHandle, allocates: bool)
    returns (status: Status, ghost w': State)
    requires g in w.graphs && w.graphs[g] == graph.State() && graph.Names(from) && graph.Names(to)
    modifies graph
    ensures status == Ok ==>
              IsStep(w, AddEdge(g, from.index, to.index), w')
    ensures status != Ok ==> w' == w
    ensures g in w'.graphs && w'.graphs[g] == graph.State() && w'.refs == w.refs
  {
    hide Enabled, Apply, WithEdge;
    status := graph.AddDependency(from, to, allocates);
    w' := w;
    if status == Ok {
      GraphCallTakesStep(w, g, AddEdge(g, from.index, to.index));
      w' := Apply(w, AddEdge(g, from.index, to.index));
    }
  }

  method Declare(ghost w: State, g: nat, graph: Graph, handle: NodeHandle, flags: set<PatchFlag>)
    returns (status: Status, ghost w': State)
    requires g in w.graphs && w.graphs[g] == graph.State() && graph.Names(handle)
    modifies graph
    ensures status == Ok ==>
              IsStep(w, DeclareFlags(g, handle.index, flags), w')
    ensures status != Ok ==> w' == w
    ensures g in w'.graphs && w'.graphs[g] == graph.State() && w'.refs == w.refs
  {
    hide Enabled, Apply, WithFlags, FlagsOk;
    status := graph.SetNodePatchFlags(handle, flags);
    w' := w;
    if status == Ok {
      GraphCallTakesStep(w, g, DeclareFlags(g, handle.index, flags));
      w' := Apply(w, DeclareFlags(g, handle.index, flags));
    }
  }

  method Attach(ghost w: State, g: nat, graph: Graph, heap: Heap, arena: Arena) returns (ghost w': State)
    requires Invariant(w) && Mirrors(w, heap) && g in w.graphs && w.graphs[g] == graph.State()
    requires ArenaRef(arena) in w.refs
    modifies graph, heap
    ensures IsStep(w, AttachArena(g, arena), w')
    ensures Mirrors(w', heap) && g in w'.graphs && w'.graphs[g] == graph.State()
  {
    hide Enabled, Apply, Invariant, GraphOk, ArenaRefs;
    GraphIsUsable(w, g);
    ArenaIsLive(graph.State(), w.refs);
    graph.SetArena(heap, arena);
    GraphCallTakesStep(w, g, AttachArena(g, arena));
    w' := Apply(w, AttachArena(g, arena));
  }

  method DropGraph(ghost w: State, g: nat, graph: Graph, heap: Heap) returns (ghost w': State)
    requires Invariant(w) && Mirrors(w, heap) && g in w.graphs && w.graphs[g] == graph.State()
    modifies graph, heap
    ensures IsStep(w, DestroyGraph(g), w') && Mirrors(w', heap)
  {
    hide Enabled, Apply, Invariant, GraphOk, GraphRefs;
    GraphIsUsable(w, g);
    graph.Destroy(heap);
    GraphCallTakesStep(w, g, DestroyGraph(g));
    w' := Apply(w, DestroyGraph(g));
  }

  // ---- execs ----

  /** No exec, launch or failure goes by this name yet. */
  predicate IsNewExec(w: State, e: nat) {
    && e !in w.execs
    && (forall l :: l in w.launches ==> w.launches[l].exec != e)
    && (forall k :: 0 <= k < |w.failures| ==> w.failures[k].exec != e)
  }

  /** A successful instantiation is the step. */
  lemma InstantiateTakesStep(
      w: State, g: nat, e: nat, device: nat, available: bool, creates: bool, order: seq<nat>, made: ExecState)
    requires g in w.graphs && IsNewExec(w, e)
    requires Instantiated(w.graphs[g], order, device, available, creates, made)
    ensures var c := World.Instantiate(g, e, device, available, creates, order, made);
      && Enabled(w, c)
      && Apply(w, c) == w.(execs := w.execs[e := ExecRecord(made, w.graphs[g], order)], refs := w.refs + ExecRefs(made))
  {
    hide Instantiated, Acceptable, LaunchFails, AfterSynchronize, AfterPatch, ExecRefs;
  }

  method Make(ghost w: State, g: nat, graph: Graph, ghost e: nat, device: nat, heap: Heap, faults: set<InstFault>)
    returns (status: Status, exec: GraphExec?, ghost w': State)
    requires Invariant(w) && Mirrors(w, heap) && g in w.graphs && w.graphs[g] == graph.State() && IsNewExec(w, e)
    modifies heap
    ensures status == Ok ==>
              && exec != null && fresh(exec)
              && e in w'.execs && w'.execs[e].state == exec.State()
              && var c := World.Instantiate(g, e, device, IcbMissing !in faults, IcbRefused !in faults,
                                            w'.execs[e].order, exec.State());
                 IsStep(w, c, w')
    ensures status != Ok ==> exec == null && w' == w
    ensures Mirrors(w', heap)
  {
    hide Enabled, Apply, Invariant, GraphOk, GraphRefs, ExecRefs, Instantiated, IsNewExec;
    GraphIsUsable(w, g);
    ghost var order;
    status, exec, order := Instantiation.Instantiate(graph, device, heap, faults);
    w' := w;
    if status == Ok {
      InstantiateTakesStep(w, g, e, device, IcbMissing !in faults, IcbRefused !in faults, order, exec.State());
      w' := w.(execs := w.execs[e := ExecRecord(exec.State(), w.graphs[g], order)], refs := heap.refs);
    }
  }

  /** Patching a node, by whichever of the six operations. */
  method Patch(ghost w: State, e: nat, exec: GraphExec, heap: Heap, id: NodeId, p: Exec.Patch)
    returns (rejection: Option<PatchError>, ghost w': State)
    requires Invariant(w) && Mirrors(w, heap) && e in w.execs && w.execs[e].state == exec.State()
    requires forall r :: r in PatchRefs(p) ==> r in w.refs
    modifies exec`nodes, heap
    ensures IsStep(w, PatchExec(e, id, p), w')
    ensures rejection.None? <==> Accepts(old(exec.State()), id, p)
    ensures rejection.None? ==> Granted(old(exec.State()), exec.State(), id, p)
    ensures rejection.Some? ==> w' == w
    ensures Mirrors(w', heap) && e in w'.execs && w'.execs[e].state == exec.State()
  {
    hide Enabled, Apply, Invariant, ExecOk, ExecRefs, PlanPatch, RefsAfterPatch, AfterPatch, Accepts, Granted;
    ExecIsUsable(w, e);
    match p {
    case PatchGrid(grid) => rejection := exec.PatchDispatchGrid(heap, id, grid);
    case PatchBuffer(index, buffer, offset) => rejection := exec.PatchDispatchBuffer(heap, id, index, buffer, offset);
    case PatchScalar(index, data) => rejection := exec.PatchDispatchScalar(heap, id, index, data);
    case PatchCopy(c) => rejection := exec.PatchCopyNode(heap, id, c);
    case PatchFill(f) => rejection := exec.PatchFillNode(heap, id, f);
    case PatchEvent(value) => rejection := exec.PatchEventValue(heap, id, value);
    }
    PatchTakesStep(w, e, id, p, rejection, exec.State(), heap.refs);
    w' := PutExec(w, e, exec.State()).(refs := heap.refs);
  }

  lemma ExecCallTakesStep(w: State, e: nat, c: Call)
    requires e in w.execs
    ensures c.SetOptimization? && c.e == e ==>
              Enabled(w, c) && Apply(w, c) == PutExec(w, e, AfterSetOptimization(w.execs[e].state, c.enabled))
    ensures c.DestroyExec? && c.e == e && w.execs[e].state.inFlight == 0 ==>
              Enabled(w, c) && Apply(w, c) == w.(execs := w.execs - {e}, refs := w.refs - ExecRefs(w.execs[e].state))
  {
    hide Instantiated, Acceptable, LaunchFails, AfterSynchronize, AfterPatch, AfterSetOptimization, ExecRefs;
  }

  method Toggle(ghost w: State, e: nat, exec: GraphExec, flags: set<OptFlag>) returns (status: Status, ghost w': State)
    requires e in w.execs && w.execs[e].state == exec.State()
    modifies exec`icb
    ensures IsStep(w, SetOptimization(e, flags), w')
    ensures status != Ok ==> w' == w
    ensures w'.refs == w.refs && e in w'.execs && w'.execs[e].state == exec.State()
  {
    hide Enabled, Apply;
    status := exec.SetOptimizationFlags(flags);
    ExecCallTakesStep(w, e, SetOptimization(e, flags));
    w' := PutExec(w, e, exec.State());
    if status != Ok {
      UnchangedExec(w, e);
    }
  }

  /** Destroying an exec that is not in flight. */
  method DropExec(ghost w: State, e: nat, exec: GraphExec, heap: Heap) returns (ghost w': State)
    requires Invariant(w) && Mirrors(w, heap) && e in w.execs && w.execs[e].state == exec.State()
    requires exec.inFlight == 0
    modifies exec, heap
    ensures IsStep(w, DestroyExec(e), w') && Mirrors(w', heap)
  {
    hide Enabled, Apply, Invariant, ExecOk, ExecRefs;
    ExecIsUsable(w, e);
    exec.Destroy(heap);
    ExecCallTakesStep(w, e, DestroyExec(e));
    w' := Apply(w, DestroyExec(e));
  }

  // ---- launches ----

  /** The launch object is what the state says of a launch the caller still has. */
  ghost predicate IsLaunch(launch: Launch, x: LaunchRecord)
    reads launch, launch.retainedBuffers, launch.retainedEvents
  {
    && launch.Valid() && x.alive
    && x.buffers == launch.Buffers() && x.events == launch.Events()
    && x.segments == launch.log && launch.impls == CommandBuffers(launch.log)
    && x.completed == launch.completed
  }

  /** A failed launch's contract is the failing step: counters, and what was left with the GPU. */
  lemma FailedLaunchTakesStep(w: State, e: nat, faults: set<LaunchFault>, state: ExecState)
    requires e in w.execs && LaunchFails(w.execs[e].state, faults)
    requires state == AfterFailedLaunch(w.execs[e].state, FailureOf(w.execs[e].state, faults).point)
    ensures Enabled(w, FailLaunch(e, faults))
    ensures Apply(w, FailLaunch(e, faults))
         == PutExec(w, e, state).(failures := w.failures + [Failure(e, w.execs[e], faults)])
  {
    hide Instantiated, Acceptable, LaunchFails, FailureOf, AfterSynchronize, AfterPatch, AfterFailedLaunch;
  }

  /**
   Launching: a launch was returned, or the call failed for these requests and left the failing step,
   with the log the machine says.
   */
  method Start(ghost w: State, e: nat, exec: GraphExec, ghost l: nat, heap: Heap, faults: set<LaunchFault>)
    returns (status: Status, launch: Launch?, ghost failed: Failed, ghost w': State)
    requires Invariant(w) && Mirrors(w, heap) && e in w.execs && w.execs[e].state == exec.State() && l !in w.launches
    modifies exec`icb, exec`inFlight, heap
    ensures status == Ok ==>
              && launch != null && fresh(launch) && launch.exec == exec
              && l in w'.launches && w'.launches[l].exec == e && IsLaunch(launch, w'.launches[l])
              && IsStep(w, World.LaunchExec(e, l), w')
    ensures status != Ok ==>
              && launch == null && w'.refs == w.refs && IsStep(w, FailLaunch(e, faults), w')
              && |w'.failures| > 0 && LeftLog(w'.failures[|w'.failures| - 1]) == failed.log
    ensures Mirrors(w', heap) && e in w'.execs && w'.execs[e].state == exec.State()
  {
    hide Enabled, Apply, Invariant, ExecOk, ExecRefs, LaunchSegments, AllBuffers, AllEvents, AfterLaunch,
         AfterFailedLaunch, HeldRefs, FailureOf, WorksRefs, LaunchFails, CommandBuffers, Launch.Buffers,
         Launch.Events;
    ExecIsUsable(w, e);
    status, launch, failed := Launching.LaunchExec(exec, heap, faults);
    if status == Ok {
      ghost var record :=
        LaunchRecord(e, w.execs[e], launch.Buffers(), launch.Events(), launch.log, false, true);
      LaunchTakesStep(w, e, l, record, exec.State(), heap.refs);
      w' := PutExec(w, e, exec.State()).(launches := w.launches[l := record], refs := heap.refs);
    } else {
      FailedLaunchTakesStep(w, e, faults, exec.State());
      w' := PutExec(w, e, exec.State()).(failures := w.failures + [Failure(e, w.execs[e], faults)]);
    }
  }

  /** Synchronizing is the step, whether it waits, refuses, or finds the launch completed. */
  lemma SynchronizeTakesStep(w: State, l: nat)
    requires l in w.launches && w.launches[l].alive
    requires !w.launches[l].completed ==> w.launches[l].exec in w.execs
    ensures Enabled(w, Synchronize(l))
    ensures var x := w.launches[l];
      Apply(w, Synchronize(l)) == if x.segments == [] || x.completed then w
                                  else PutExec(w, x.exec, AfterComplete(w.execs[x.exec].state))
                                         .(launches := w.launches[l := x.(completed := true)])
  {
    hide Instantiated, Acceptable, LaunchFails, AfterPatch, AfterComplete;
  }

  method Finish(ghost w: State, l: nat, launch: Launch, exec: GraphExec, gpuError: bool)
    returns (status: Status, ghost w': State)
    requires Invariant(w) && l in w.launches && IsLaunch(launch, w.launches[l]) && launch.exec == exec
    requires w.launches[l].exec in w.execs ==> w.execs[w.launches[l].exec].state == exec.State()
    modifies launch`completed, exec
    ensures IsStep(w, Synchronize(l), w')
    ensures status == InvalidArgument ==> w' == w
    ensures w'.refs == w.refs && l in w'.launches && IsLaunch(launch, w'.launches[l])
    ensures w.launches[l].exec in w.execs ==>
              w.launches[l].exec in w'.execs && w'.execs[w.launches[l].exec].state == exec.State()
  {
    hide Enabled, Apply, Invariant, AfterComplete, LaunchRefs, Launch.Buffers, Launch.Events;
    LaunchIsUsable(w, l);
    SynchronizeTakesStep(w, l);
    status := launch.Synchronize(gpuError);
    w' := Apply(w, Synchronize(l));
  }

  lemma DestroyLaunchTakesStep(w: State, l: nat)
    requires l in w.launches && w.launches[l].alive
    ensures Enabled(w, DestroyLaunch(l))
    ensures Apply(w, DestroyLaunch(l))
         == w.(launches := w.launches[l := w.launches[l].(alive := false)], refs := w.refs - LaunchRefs(w.launches[l]))
  {
    hide Instantiated, Acceptable, LaunchFails, AfterPatch, AfterSynchronize, LaunchRefs;
  }

  method DropLaunch(ghost w: State, l: nat, launch: Launch, heap: Heap) returns (ghost w': State)
    requires Invariant(w) && Mirrors(w, heap) && l in w.launches && IsLaunch(launch, w.launches[l])
    modifies launch`impls, heap
    ensures IsStep(w, DestroyLaunch(l), w') && Mirrors(w', heap)
  {
    hide Enabled, Apply, Invariant, HeldRefs, Launch.Buffers, Launch.Events;
    LaunchIsUsable(w, l);
    launch.Destroy(heap);
    DestroyLaunchTakesStep(w, l);
    w' := Apply(w, DestroyLaunch(l));
  }
}
