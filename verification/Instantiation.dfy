/**
 Turning a graph into an executable one: schedule, plan the workspace, clone every node in schedule
 order, load backend objects, prerecord. Whatever fails on the way gives back all it had taken.
 */
module Instantiation {
  import opened Prelude
  import opened Model
  import opened Heaps
  import opened Validation
  import opened Topology
  import opened Kahn
  import opened Planner
  import opened Builder
  import opened Commands
  import opened Exec
  import opened Patching

  // ---- the result ----

  function ImplFor(w: Work): Impl {
    match w
    case Dispatch(d) => Pipeline(d.metallib, d.kernel)
    case TensorGraph(package, _, _) => Executable(package)
    case _ => NoImpl
  }

  /** `e` is the executable copy of `n`; a workspace node carries the offset of its first record. */
  ghost predicate IsCloneOf(n: Node, records: seq<Record>, e: ExecNode) {
    && e == ExecNode(n.id, n.flags, n.work, ImplFor(n.work), e.offset)
    && (RequirementOf(n).None? ==> e.offset == 0)
    && (RequirementOf(n).Some? ==>
          exists k :: 0 <= k < |records| && IsFirstRecord(records, n.id, k) && records[k].offset == e.offset)
  }

  /** What instantiating `g` along `order` yields. */
  ghost predicate Instantiated(
      g: GraphState, order: seq<nat>, device: nat, available: bool, creates: bool, s: ExecState) {
    && IsSchedule(order, g.edges, |g.nodes|)
    && IsDepthSorted(order, g.edges, |g.nodes|)
    && RequirementsOk(Requirements(g.nodes, order))
    && Fits(Requirements(g.nodes, order), g.arena)
    && s.plan == PlanFor(Requirements(g.nodes, order), g.arena)
    && |s.nodes| == |order|
    && (forall i :: 0 <= i < |order| ==> IsCloneOf(g.nodes[order[i]], s.plan.records, s.nodes[i]))
    && s.device == Some(device)
    && s.hasWorkspace == (s.plan.totalSize > 0)
    && s.icb == BuiltIcb(s.nodes, available, creates)
    && s.inFlight == 0
  }

  // ---- the lookup is total and finds a node's own slice ----

  lemma {:induction false} RequirementHasNode(nodes: seq<Node>, order: seq<nat>, k: nat) returns (i: nat)
    requires forall j :: 0 <= j < |order| ==> order[j] < |nodes|
    requires k < |Requirements(nodes, order)|
    ensures i < |order| && RequirementOf(nodes[order[i]]) == Some(Requirements(nodes, order)[k])
    decreases |order|
  {
    hide RequirementOf;
    var n := |order| - 1;
    if k < |Requirements(nodes, order[..n])| {
      i := RequirementHasNode(nodes, order[..n], k);
    } else {
      i := n;
    }
  }

  lemma NodeHasRequirement(nodes: seq<Node>, order: seq<nat>, i: nat) returns (k: nat)
    requires forall j :: 0 <= j < |order| ==> order[j] < |nodes|
    requires i < |order| && RequirementOf(nodes[order[i]]).Some?
    ensures k < |Requirements(nodes, order)|
    ensures Requirements(nodes, order)[k] == RequirementOf(nodes[order[i]]).value
  {
    hide RequirementOf, Requirements;
    StepIsPrefix(nodes, order, i, RequirementOf(nodes[order[i]]).value);
    k := |Requirements(nodes, order[..i])|;
  }

  lemma RequirementNamesNode(n: Node)
    ensures RequirementOf(n).Some? ==> RequirementOf(n).value.node == n.id
  {
  }

  /** All requirements with a node's identifier are that node's requirement. */
  lemma RequirementsAreUnique(g: GraphState, order: seq<nat>, i: nat, k: nat)
    requires GraphOk(g) && IsSelection(order, |g.nodes|)
    requires i < |order| && RequirementOf(g.nodes[order[i]]).Some?
    requires k < |Requirements(g.nodes, order)|
    requires Requirements(g.nodes, order)[k].node == g.nodes[order[i]].id
    ensures Requirements(g.nodes, order)[k] == RequirementOf(g.nodes[order[i]]).value
  {
    hide RequirementOf, Requirements, WorkOk, FlagsOk;
    var j := RequirementHasNode(g.nodes, order, k);
    RequirementNamesNode(g.nodes[order[j]]);
    assert g.nodes[order[j]].id == order[j] + 1 && g.nodes[order[i]].id == order[i] + 1;
  }

  /** Every workspace node has a record, so the lookup's internal error cannot happen. */
  lemma LookupIsTotal(g: GraphState, order: seq<nat>, i: nat)
    requires forall j :: 0 <= j < |order| ==> order[j] < |g.nodes|
    requires i < |order| && RequirementOf(g.nodes[order[i]]).Some?
    ensures exists k :: 0 <= k < |Layout(Requirements(g.nodes, order))|
                     && Layout(Requirements(g.nodes, order))[k].node == g.nodes[order[i]].id
  {
    hide RequirementOf, Requirements, Layout;
    var k := NodeHasRequirement(g.nodes, order, i);
    RequirementNamesNode(g.nodes[order[i]]);
    LayoutAt(Requirements(g.nodes, order), k);
  }

  /** The record the lookup finds is the node's own: its size, its alignment, its slice. */
  lemma LookupFindsOwnSlice(g: GraphState, order: seq<nat>, i: nat, k: nat)
    requires GraphOk(g) && IsSelection(order, |g.nodes|)
    requires i < |order| && RequirementOf(g.nodes[order[i]]).Some?
    requires k < |Layout(Requirements(g.nodes, order))|
    requires IsFirstRecord(Layout(Requirements(g.nodes, order)), g.nodes[order[i]].id, k)
    ensures var r := RequirementOf(g.nodes[order[i]]).value;
      var record := Layout(Requirements(g.nodes, order))[k];
      record == Record(r.node, r.size, r.alignment, record.offset)
  {
    hide RequirementOf, Requirements, Layout, GraphOk;
    LayoutAt(Requirements(g.nodes, order), k);
    RequirementsAreUnique(g, order, i, k);
  }

  // ---- a fresh exec is well formed ----

  lemma LayoutIsPlanOk(reqs: seq<Requirement>, arena: Option<Arena>)
    requires RequirementsOk(reqs) && Fits(reqs, arena)
    ensures PlanOk(PlanFor(reqs, arena))
  {
    hide RequirementsOk;
    var records := Layout(reqs);
    forall k | 0 <= k < |records|
      ensures records[k].offset + records[k].size <= End(reqs)
    {
      LayoutAt(reqs, k);
      SliceIsInside(reqs, k);
    }
    forall j, k | 0 <= j < k < |records|
      ensures records[j].offset + records[j].size <= records[k].offset
    {
      LayoutAt(reqs, j);
      SlicesAreDisjoint(reqs, j, k);
    }
  }

  lemma CloneIsOk(g: GraphState, order: seq<nat>, plan: Plan, i: nat, e: ExecNode)
    requires GraphOk(g) && IsSelection(order, |g.nodes|) && i < |order|
    requires plan.records == Layout(Requirements(g.nodes, order))
    requires IsCloneOf(g.nodes[order[i]], plan.records, e)
    ensures NodeOk(e) && SliceOk(plan, e)
  {
    hide Requirements, Layout, WorkOk, FlagsOk, RequirementOf, IsFirstRecord;
    var n := g.nodes[order[i]];
    assert WorkOk(n.work) && FlagsOk(n.work, n.flags);
    assert Node(e.id, e.flags, e.work) == n;
    if RequirementOf(n).Some? {
      var k :| 0 <= k < |plan.records| && IsFirstRecord(plan.records, n.id, k) && plan.records[k].offset == e.offset;
      LookupFindsOwnSlice(g, order, i, k);
      assert plan.records[k] in plan.records;
    }
  }

  /** Instantiating a well-formed graph yields a well-formed exec. */
  lemma InstantiatedOk(g: GraphState, order: seq<nat>, device: nat, available: bool, creates: bool, s: ExecState)
    requires GraphOk(g) && Instantiated(g, order, device, available, creates, s)
    ensures ExecOk(s)
  {
    hide Requirements, Layout, NodeOk, SliceOk, RequirementsOk, Fits, WorkOk, FlagsOk, BuiltIcb;
    LayoutIsPlanOk(Requirements(g.nodes, order), g.arena);
    forall i | 0 <= i < |s.nodes|
      ensures NodeOk(s.nodes[i]) && SliceOk(s.plan, s.nodes[i])
      ensures s.nodes[i].id == order[i] + 1
    {
      CloneIsOk(g, order, s.plan, i, s.nodes[i]);
      assert IsCloneOf(g.nodes[order[i]], s.plan.records, s.nodes[i]);
    }
    BuiltIcbOk(s.nodes, available, creates, s);
  }

  /** Whether the exec holds a recording follows from the graph's nodes and from what Metal offers. */
  lemma RecordedWhenMade(
      g: GraphState, order: seq<nat>, device: nat, available: bool, creates: bool, s: ExecState)
    requires GraphOk(g) && Instantiated(g, order, device, available, creates, s)
    ensures s.icb.commands.Some? <==> |g.nodes| == 1 && available && creates && Recordable(s.nodes[0])
    ensures |g.nodes| == 1 ==> s.nodes[0].work == g.nodes[0].work && s.nodes[0].flags == g.nodes[0].flags
  {
    hide GraphOk, Requirements, NodeOk, SliceOk, PlanOk, IdsOk, IcbOk, RequirementsOk, Fits, WorkOk, FlagsOk, BuiltIcb,
         Recordable;
    InstantiatedOk(g, order, device, available, creates, s);
    RecordedIff(s.nodes, available, creates);
    if |g.nodes| == 1 {
      assert order[0] == 0;
      assert IsCloneOf(g.nodes[0], s.plan.records, s.nodes[0]);
    }
  }

  // ---- cloning ----

  /** Memory and backend requests of an instantiation; `i` is the position in the schedule. */
  datatype InstFault =
    | ValidateOrder | ValidateScratch | OrderTable | OrderScratch | NewExec | RecordAlloc(k: nat)
    | NodeTable | WorkspaceBuffer
    | CloneStrings(i: nat) | CloneBindings(i: nat) | CloneScalarTable(i: nat) | CloneScalar(i: nat, k: nat)
    | CloneResources(i: nat) | ClonePackage(i: nat)
    | CloneFeedTable(i: nat) | CloneFeedShape(i: nat, k: nat)
    | CloneTargetTable(i: nat) | CloneTargetShape(i: nat, k: nat)
    | LoadPackage(i: nat) | LoadLibrary(i: nat) | FindFunction(i: nat) | MakePipeline(i: nat)
    | IcbMissing | IcbRefused

  predicate DispatchCloneFails(d: DispatchWork, i: nat, faults: set<InstFault>) {
    || CloneStrings(i) in faults
    || (d.buffers != [] && CloneBindings(i) in faults)
    || (d.scalars != [] && CloneScalarTable(i) in faults)
    || (exists k :: 0 <= k < |d.scalars| && CloneScalar(i, k) in faults)
    || (d.resources != [] && CloneResources(i) in faults)
  }

  function FailingFeedClones(i: nat, faults: set<InstFault>): (r: set<nat>)
    ensures forall k :: k in r <==> CloneFeedShape(i, k) in faults
  {
    set f | f in faults && f.CloneFeedShape? && f.i == i :: f.k
  }

  function FailingTargetClones(i: nat, faults: set<InstFault>): (r: set<nat>)
    ensures forall k :: k in r <==> CloneTargetShape(i, k) in faults
  {
    set f | f in faults && f.CloneTargetShape? && f.i == i :: f.k
  }

  predicate TensorGraphCloneFails(w: Work, i: nat, faults: set<InstFault>)
    requires w.TensorGraph?
  {
    || ClonePackage(i) in faults
    || TensorsFail(w.feeds, CloneFeedTable(i) in faults, FailingFeedClones(i, faults))
    || TensorsFail(w.targets, CloneTargetTable(i) in faults, FailingTargetClones(i, faults))
  }

  /** One of the memory requests for the copy of this very node, at position `i`, is refused. */
  predicate CloneFails(w: Work, i: nat, faults: set<InstFault>) {
    match w
    case Dispatch(d) => DispatchCloneFails(d, i, faults)
    case TensorGraph(_, _, _) => TensorGraphCloneFails(w, i, faults)
    case _ => false
  }

  predicate LoadFails(w: Work, i: nat, faults: set<InstFault>) {
    match w
    case Dispatch(_) => LoadLibrary(i) in faults || FindFunction(i) in faults || MakePipeline(i) in faults
    case TensorGraph(_, _, _) => LoadPackage(i) in faults
    case _ => false
  }

  predicate NodeFails(w: Work, i: nat, faults: set<InstFault>) {
    CloneFails(w, i, faults) || LoadFails(w, i, faults)
  }

  predicate NodesFail(nodes: seq<Node>, order: seq<nat>, faults: set<InstFault>)
    requires forall i :: 0 <= i < |order| ==> order[i] < |nodes|
  {
    exists i :: 0 <= i < |order| && NodeFails(nodes[order[i]].work, i, faults)
  }

  predicate ScheduleFails(n: nat, faults: set<InstFault>) {
    n > 0 && (ValidateOrder in faults || ValidateScratch in faults || OrderTable in faults || OrderScratch in faults)
  }

  /** The workspace buffer, a copy or a backend object cannot be had. */
  predicate FillFails(g: GraphState, order: seq<nat>, faults: set<InstFault>)
    requires forall i :: 0 <= i < |order| ==> order[i] < |g.nodes|
  {
    || (End(Requirements(g.nodes, order)) > 0 && WorkspaceBuffer in faults)
    || NodesFail(g.nodes, order, faults)
  }

  predicate AssemblyFails(g: GraphState, order: seq<nat>, faults: set<InstFault>)
    requires forall i :: 0 <= i < |order| ==> order[i] < |g.nodes|
  {
    || NewExec in faults
    || RecordsFail(|Requirements(g.nodes, order)|, FailingRecords(faults))
    || (g.nodes != [] && NodeTable in faults)
    || FillFails(g, order, faults)
  }

  /**
   One of the requests that instantiating this very graph along this order makes is refused. Without an
   ICB, instantiation does not fail but records nothing.
   */
  ghost predicate InstantiationFails(g: GraphState, order: seq<nat>, faults: set<InstFault>) {
    || ScheduleFails(|g.nodes|, faults)
    || (IsSchedule(order, g.edges, |g.nodes|) && AssemblyFails(g, order, faults))
  }

  /** Clones a dispatch node; on failure the copy holds what was retained so far. */
  method CloneDispatch(heap: Heap, d: DispatchWork, i: nat, faults: set<InstFault>)
    returns (ok: bool, out: DispatchWork)
    requires heap.Valid() && forall r :: r in WorkSlots(Dispatch(d)) ==> r in heap.refs
    modifies heap
    ensures heap.Valid() && (ok <==> !DispatchCloneFails(d, i, faults))
    ensures heap.refs == old(heap.refs) + WorkRefs(Dispatch(out))
    ensures ok ==> out == d
  {
    hide WorkSlots, Heap.Valid;
    out := DispatchWork(d.metallib, d.kernel, d.grid, d.threads, d.maxGrid, [], [], []);
    SlotsByKind(Dispatch(d));
    NoBindingsNoRefs(out);
    if CloneStrings(i) in faults {
      return false, out;
    }
    if |d.buffers| > 0 {
      if CloneBindings(i) in faults {
        return false, out;
      }
      out := out.(buffers := d.buffers);
      heap.RetainAll(BufferSlots(BindingBuffers(d.buffers)));
    }
    SlotsByKind(Dispatch(out));
    ghost var bound := out;
    if |d.scalars| > 0 {
      if CloneScalarTable(i) in faults {
        return false, out;
      }
      for k := 0 to |d.scalars|
        invariant out == bound.(scalars := d.scalars[..k])
        invariant forall j :: 0 <= j < k ==> CloneScalar(i, j) !in faults
      {
        if CloneScalar(i, k) in faults {
          SameBindingsSameRefs(bound, out);
          return false, out;
        }
        assert d.scalars[..k + 1] == d.scalars[..k] + [d.scalars[k]];
        out := out.(scalars := out.scalars + [d.scalars[k]]);
      }
      assert d.scalars[..|d.scalars|] == d.scalars;
    }
    SameBindingsSameRefs(bound, out);
    if |d.resources| > 0 {
      if CloneResources(i) in faults {
        return false, out;
      }
      out := out.(resources := d.resources);
      SameBindingsSameRefs(bound, out);
    }
    return true, out;
  }

  /** Clones stored tensors; on failure nothing stays retained. */
  method CloneStoredTensors(heap: Heap, tensors: seq<Tensor>, tableFails: bool, shapeFails: set<nat>)
    returns (ok: bool, out: seq<Tensor>)
    requires heap.Valid() && forall r :: r in BufferSlots(TensorBuffers(tensors)) ==> r in heap.refs
    modifies heap
    ensures heap.Valid() && (ok <==> !TensorsFail(tensors, tableFails, shapeFails))
    ensures out == (if ok then tensors else [])
    ensures heap.refs == old(heap.refs) + TensorRefs(out)
  {
    hide TensorRefs, TensorBuffers, BufferSlots, Heap.Valid;
    out := [];
    NoTensorsNoRefs();
    if |tensors| == 0 {
      assert tensors == [];
      return true, out;
    }
    if tableFails {
      return false, out;
    }
    for i := 0 to |tensors|
      invariant heap.Valid() && out == tensors[..i]
      invariant heap.refs == old(heap.refs) + TensorRefs(tensors[..i])
      invariant forall k :: 0 <= k < i ==> k !in shapeFails
    {
      if i in shapeFails {
        ReleaseTensors(heap, out);
        return false, [];
      }
      TensorRefsStep(tensors, i);
      assert tensors[..i + 1] == tensors[..i] + [tensors[i]];
      out := out + [tensors[i]];
      heap.Retain(BufferRef(tensors[i].buffer));
    }
    assert tensors[..|tensors|] == tensors;
    return true, out;
  }

  /** Clones a tensor graph; on failure the copy holds what was retained so far. */
  method CloneTensorGraph(heap: Heap, w: Work, i: nat, faults: set<InstFault>) returns (ok: bool, out: Work)
    requires w.TensorGraph? && heap.Valid() && forall r :: r in WorkSlots(w) ==> r in heap.refs
    modifies heap
    ensures heap.Valid() && (ok <==> !TensorGraphCloneFails(w, i, faults))
    ensures out.TensorGraph? && heap.refs == old(heap.refs) + WorkRefs(out)
    ensures ok ==> out == w
  {
    hide WorkRefs, WorkSlots, TensorRefs, Heap.Valid, TensorsFail;
    SlotsByKind(w);
    NoTensorsNoRefs();
    out := TensorGraph(w.package, [], []);
    TensorGraphRefs(w.package, [], []);
    if ClonePackage(i) in faults {
      return false, out;
    }
    var cloned, feeds := CloneStoredTensors(heap, w.feeds, CloneFeedTable(i) in faults,
                                            FailingFeedClones(i, faults));
    TensorGraphRefs(w.package, feeds, []);
    out := TensorGraph(w.package, feeds, []);
    if !cloned {
      return false, out;
    }
    var targets;
    cloned, targets := CloneStoredTensors(heap, w.targets, CloneTargetTable(i) in faults,
                                          FailingTargetClones(i, faults));
    TensorGraphRefs(w.package, feeds, targets);
    out := TensorGraph(w.package, feeds, targets);
    return cloned, out;
  }

  /** Clones one node at position `i`; on failure the copy holds what was retained so far. */
  method CloneNode(heap: Heap, n: Node, records: seq<Record>, i: nat, faults: set<InstFault>)
    returns (status: Status, e: ExecNode)
    requires heap.Valid() && forall r :: r in WorkSlots(n.work) ==> r in heap.refs
    requires RequirementOf(n).Some? ==> exists k :: 0 <= k < |records| && records[k].node == n.id
    modifies heap
    ensures heap.Valid() && heap.refs == old(heap.refs) + WorkRefs(e.work)
    ensures status == if CloneFails(n.work, i, faults) then OutOfMemory else Ok
    ensures status == Ok ==>
              && e == ExecNode(n.id, n.flags, n.work, NoImpl, e.offset)
              && IsCloneOf(n, records, e.(impl := ImplFor(n.work)))
  {
    hide WorkRefs, WorkSlots, DispatchCloneFails, TensorGraphCloneFails, Heap.Valid;
    e := ExecNode(n.id, n.flags, n.work, NoImpl, 0);
    if n.work.Dispatch? {
      var ok, out := CloneDispatch(heap, n.work.dispatch, i, faults);
      return (if ok then Ok else OutOfMemory), e.(work := Dispatch(out));
    }
    if n.work.TensorGraph? {
      var ok, out := CloneTensorGraph(heap, n.work, i, faults);
      return (if ok then Ok else OutOfMemory), e.(work := out);
    }
    RetainWork(heap, n.work);
    if n.work.Workspace? || n.work.WorkspaceFill? {
      var found := OffsetForNode(records, n.id);
      if found.None? {
        return InternalError, e;
      }
      return Ok, e.(offset := found.value);
    }
    return Ok, e;
  }

  method RetainWork(heap: Heap, w: Work)
    requires heap.Valid() && forall r :: r in WorkSlots(w) ==> r in heap.refs
    modifies heap
    ensures heap.Valid() && heap.refs == old(heap.refs) + WorkRefs(w)
  {
    heap.RetainAll(WorkSlots(w));
  }

  /** Loads the backend object a node runs with. */
  method LoadImpl(e: ExecNode, i: nat, faults: set<InstFault>) returns (status: Status, out: ExecNode)
    requires e.impl == NoImpl
    ensures status == if LoadFails(e.work, i, faults) then BackendError else Ok
    ensures out == if status == Ok then e.(impl := ImplFor(e.work)) else e
  {
    out := e;
    if e.work.TensorGraph? {
      if LoadPackage(i) in faults {
        return BackendError, out;
      }
      return Ok, e.(impl := Executable(e.work.package));
    }
    if !e.work.Dispatch? {
      return Ok, out;
    }
    if LoadLibrary(i) in faults {
      return BackendError, out;
    }
    if FindFunction(i) in faults {
      return BackendError, out;
    }
    if MakePipeline(i) in faults {
      return BackendError, out;
    }
    return Ok, e.(impl := Pipeline(e.work.dispatch.metallib, e.work.dispatch.kernel));
  }

  // ---- instantiation ----

  /** Schedules the nodes, after validating the graph the same way. */
  method ScheduleNodes(g: Graph, faults: set<InstFault>) returns (status: Status, order: seq<nat>)
    requires GraphOk(g.State())
    ensures status in {Ok, InvalidTopology, OutOfMemory}
    ensures status == Ok ==> IsSchedule(order, g.edges, |g.nodes|) && IsDepthSorted(order, g.edges, |g.nodes|)
    ensures status == InvalidTopology ==> HasCycle(g.edges)
    ensures status == OutOfMemory ==> ScheduleFails(|g.nodes|, faults)
    ensures status == Ok ==> !ScheduleFails(|g.nodes|, faults)
  {
    hide IsSchedule, IsLevelling, SortedByLevel, HasCycle;
    order := [];
    status := g.Validate(ValidateOrder !in faults, ValidateScratch !in faults);
    if status != Ok {
      return;
    }
    if |g.nodes| > 0 && OrderTable in faults {
      return OutOfMemory, order;
    }
    var table := new nat[|g.nodes|];
    ghost var level;
    status, level := TopologicalOrder(|g.nodes|, g.edges, table, OrderScratch !in faults);
    order := table[..];
  }

  /** Clones and loads the nodes in schedule order; on failure the exec holds what was built so far. */
  method Populate(exec: GraphExec, nodes: seq<Node>, order: seq<nat>, heap: Heap, faults: set<InstFault>)
    returns (status: Status)
    requires heap.Valid() && exec.nodes == []
    requires forall i :: 0 <= i < |order| ==> order[i] < |nodes|
    requires forall i, r :: 0 <= i < |nodes| && r in WorkSlots(nodes[i].work) ==> r in heap.refs
    requires forall i :: 0 <= i < |order| && RequirementOf(nodes[order[i]]).Some? ==>
               exists k :: 0 <= k < |exec.plan.records| && exec.plan.records[k].node == nodes[order[i]].id
    modifies exec`nodes, heap
    ensures heap.Valid() && heap.refs == old(heap.refs) + WorksRefs(ExecWorks(exec.nodes))
    ensures status in {Ok, OutOfMemory, BackendError} && (status == Ok <==> !NodesFail(nodes, order, faults))
    ensures status == Ok ==>
              && |exec.nodes| == |order|
              && forall i :: 0 <= i < |order| ==> IsCloneOf(nodes[order[i]], exec.plan.records, exec.nodes[i])
  {
    hide RequirementOf, WorkSlots, WorkRefs, WorksRefs, IsCloneOf, CloneFails, LoadFails, Heap.Valid;
    NoWorksNoRefs();
    for i := 0 to |order|
      invariant heap.Valid() && |exec.nodes| == i
      invariant heap.refs == old(heap.refs) + WorksRefs(ExecWorks(exec.nodes))
      invariant forall k :: 0 <= k < i ==> !NodeFails(nodes[order[k]].work, k, faults)
      invariant forall k :: 0 <= k < i ==> IsCloneOf(nodes[order[k]], exec.plan.records, exec.nodes[k])
    {
      var node := nodes[order[i]];
      var e;
      status, e := CloneNode(heap, node, exec.plan.records, i, faults);
      AddExecNode(exec.nodes, e);
      if status != Ok {
        exec.nodes := exec.nodes + [e];
        return;
      }
      ghost var cloned := e;
      status, e := LoadImpl(e, i, faults);
      AddExecNode(exec.nodes, e);
      exec.nodes := exec.nodes + [e];
      if status != Ok {
        return;
      }
    }
    return Ok;
  }

  lemma NoWorksNoRefs()
    ensures WorksRefs(ExecWorks([])) == multiset{}
  {
  }

  lemma AddExecNode(nodes: seq<ExecNode>, e: ExecNode)
    ensures WorksRefs(ExecWorks(nodes + [e])) == WorksRefs(ExecWorks(nodes)) + WorkRefs(e.work)
  {
    hide WorksRefs, WorkRefs;
    assert ExecWorks(nodes + [e]) == ExecWorks(nodes) + [e.work];
    WorksRefsSnoc(ExecWorks(nodes), e.work);
  }

  lemma GraphSlotsAreLive(g: GraphState, refs: multiset<Ref>, i: nat, r: Ref)
    requires GraphRefs(g) <= refs && i < |g.nodes| && r in WorkSlots(g.nodes[i].work)
    ensures r in refs
  {
    assert GraphWorks(g.nodes)[i] == g.nodes[i].work;
    InWorksRefs(GraphWorks(g.nodes), r);
    assert r in WorkRefs(g.nodes[i].work);
  }

  /** Decides the eligibility of a dispatch node, binding by binding. */
  method CheckEligibility(d: DispatchWork, flags: set<PatchFlag>) returns (reason: IcbReason)
    ensures reason == Eligibility(d, flags)
    ensures ResourcesOk(d.resources, d.buffers) ==>
              (reason == NoFallback <==>
                 && flags == {} && d.scalars == []
                 && forall i :: 0 <= i < |d.buffers| ==> HasKnownRange(d, i))
  {
    hide HasKnownRange, ResourcesOk;
    if ResourcesOk(d.resources, d.buffers) {
      EligibilityTold(d, flags);
    }
    if flags != {} || |d.scalars| != 0 {
      return PatchableField;
    }
    for i := 0 to |d.buffers|
      invariant forall k :: 0 <= k < i ==> AccessKnown(d.resources, d.buffers[k].index)
    {
      var resource := FindResource(d.resources, d.buffers[i].index);
      if resource.None? || resource.value.byteCount == 0 || resource.value.access.UnknownAccess? {
        assert !AccessKnown(d.resources, d.buffers[i].index);
        return UnknownResourceAccess;
      }
    }
    return NoFallback;
  }

  /** Records the single eligible dispatch of an exec, or notes why it cannot. */
  method BuildIcb(exec: GraphExec, available: bool, creates: bool)
    modifies exec`icb
    ensures exec.icb == BuiltIcb(exec.nodes, available, creates)
  {
    exec.icb := Icb({UseIcb}, available, 0, 0, 0, NoFallback, None);
    if |exec.nodes| == 0 {
      return;
    }
    exec.icb := exec.icb.(planned := 1);
    if |exec.nodes| != 1 {
      exec.icb := exec.icb.(fallback := 1, reason := IneligibleNode);
      return;
    }
    if !available {
      exec.icb := exec.icb.(fallback := 1, reason := IcbUnsupported);
      return;
    }
    if !exec.nodes[0].work.Dispatch? {
      exec.icb := exec.icb.(fallback := 1, reason := IneligibleNode);
      return;
    }
    var dispatch := exec.nodes[0].work.dispatch;
    var reason := CheckEligibility(dispatch, exec.nodes[0].flags);
    if reason != NoFallback {
      exec.icb := exec.icb.(fallback := 1, reason := reason);
      return;
    }
    if !creates {
      exec.icb := exec.icb.(fallback := 1, reason := BackendFailure);
      return;
    }
    var bindings := [];
    for j := 0 to |dispatch.buffers|
      invariant |bindings| == j && forall k :: 0 <= k < j ==> bindings[k] == Bound(dispatch.buffers[k])
    {
      var buffer := dispatch.buffers[j].buffer;
      bindings := bindings + [BoundBuffer(buffer.metal, MetalOffset(buffer, dispatch.buffers[j].offset),
                                          dispatch.buffers[j].index)];
    }
    assert bindings == BoundBuffers(dispatch.buffers);
    var command := Command(exec.nodes[0].id,
      RunKernel(exec.nodes[0].impl, bindings, [], dispatch.grid, dispatch.threads));
    exec.icb := exec.icb.(commands := Some([command]));
  }

  /**
   Instantiates a graph. Success yields a well-formed snapshot along a schedule that is sorted by depth;
   every failure has the stated cause, leaves no reference behind, and is never the lookup's internal
   error. An acyclic graph whose workspace can be placed is instantiated exactly when every request it
   makes is met.
   */
  method Instantiate(g: Graph, device: nat, heap: Heap, faults: set<InstFault>)
    returns (status: Status, exec: GraphExec?, ghost order: seq<nat>)
    requires GraphOk(g.State()) && heap.Valid() && GraphRefs(g.State()) <= heap.refs
    modifies heap
    ensures heap.Valid()
    ensures status == Ok ==>
              && exec != null && fresh(exec)
              && Instantiated(g.State(), order, device, IcbMissing !in faults, IcbRefused !in faults, exec.State())
              && heap.refs == old(heap.refs) + ExecRefs(exec.State())
              && !InstantiationFails(g.State(), order, faults)
    ensures status != Ok ==> exec == null && heap.refs == old(heap.refs)
    ensures status in {Ok, InvalidTopology, InvalidArgument, OutOfMemory, BackendError}
    ensures status == InvalidTopology ==> HasCycle(g.edges)
    ensures status == InvalidArgument ==>
              && IsSchedule(order, g.edges, |g.nodes|)
              && !CanBePlaced(Requirements(g.nodes, order), g.arena)
    ensures status in {OutOfMemory, BackendError} ==> InstantiationFails(g.State(), order, faults)
  {
    hide *;
    exec := null;
    var table;
    status, table := ScheduleNodes(g, faults);
    order := table;
    StateOfGraph(g);
    if status == Ok {
      status, exec := Assemble(g, table, device, heap, faults);
    }
    WhyItFailed(g.State(), order, faults);
  }

  lemma WhyItFailed(g: GraphState, order: seq<nat>, faults: set<InstFault>)
    ensures ScheduleFails(|g.nodes|, faults) ==> InstantiationFails(g, order, faults)
    ensures IsSchedule(order, g.edges, |g.nodes|) && !ScheduleFails(|g.nodes|, faults) ==>
              (InstantiationFails(g, order, faults) <==> AssemblyFails(g, order, faults))
  {
    hide AssemblyFails;
  }

  /** Plans, builds and prerecords along a schedule. */
  method Assemble(g: Graph, order: seq<nat>, device: nat, heap: Heap, faults: set<InstFault>)
    returns (status: Status, exec: GraphExec?)
    requires GraphOk(g.State()) && heap.Valid() && GraphRefs(g.State()) <= heap.refs
    requires IsSchedule(order, g.edges, |g.nodes|) && IsDepthSorted(order, g.edges, |g.nodes|)
    modifies heap
    ensures heap.Valid()
    ensures status == Ok ==>
              && exec != null && fresh(exec)
              && Instantiated(g.State(), order, device, IcbMissing !in faults, IcbRefused !in faults, exec.State())
              && heap.refs == old(heap.refs) + ExecRefs(exec.State())
              && !AssemblyFails(g.State(), order, faults)
    ensures status != Ok ==> exec == null && heap.refs == old(heap.refs)
    ensures status in {Ok, InvalidArgument, OutOfMemory, BackendError}
    ensures status == InvalidArgument ==>
              !CanBePlaced(Requirements(g.nodes, order), g.arena)
    ensures status in {OutOfMemory, BackendError} ==> AssemblyFails(g.State(), order, faults)
  {
    hide *;
    exec := null;
    ScheduleIndices(order, g.edges, |g.nodes|);
    StateOfGraph(g);
    AssemblyParts(g.State(), order, faults);
    if NewExec in faults {
      return OutOfMemory, null;
    }
    var planner := new WorkspacePlan();
    ArenaIsLive(g.State(), heap.refs);
    StateFields(g, planner);
    status := planner.Build(g.nodes, order, g.arena, heap, FailingRecords(faults));
    StateFields(g, planner);
    if status != Ok {
      return;
    }
    if |g.nodes| > 0 && NodeTable in faults {
      planner.Clear(heap);
      return OutOfMemory, null;
    }
    status, exec := Finish(g, order, planner.State(), device, heap, faults);
  }

  lemma AssemblyParts(g: GraphState, order: seq<nat>, faults: set<InstFault>)
    requires forall i :: 0 <= i < |order| ==> order[i] < |g.nodes|
    ensures AssemblyFails(g, order, faults)
       <==> || NewExec in faults
            || RecordsFail(|Requirements(g.nodes, order)|, FailingRecords(faults))
            || (|g.nodes| > 0 && NodeTable in faults)
            || FillFails(g, order, faults)
  {
    hide FillFails, RecordsFail, FailingRecords, Requirements;
  }

  lemma StateOfGraph(g: Graph)
    ensures g.State() == GraphState(g.nodes, g.edges, g.arena)
  {
  }

  /** Builds the exec around a finished plan, or gives everything back, the plan's arena included. */
  method Finish(g: Graph, order: seq<nat>, plan: Plan, device: nat, heap: Heap, faults: set<InstFault>)
    returns (status: Status, exec: GraphExec?)
    requires GraphOk(g.State()) && heap.Valid() && GraphRefs(g.State()) + ArenaRefs(plan.arena) <= heap.refs
    requires IsSchedule(order, g.edges, |g.nodes|) && IsDepthSorted(order, g.edges, |g.nodes|)
    requires RequirementsOk(Requirements(g.nodes, order)) && Fits(Requirements(g.nodes, order), g.arena)
    requires plan == PlanFor(Requirements(g.nodes, order), g.arena)
    modifies heap
    ensures heap.Valid()
    ensures status in {Ok, OutOfMemory, BackendError} && (status != Ok ==> exec == null)
    ensures status == Ok <==> !FillFails(g.State(), order, faults)
    ensures status == Ok ==>
              && exec != null && fresh(exec)
              && Instantiated(g.State(), order, device, IcbMissing !in faults, IcbRefused !in faults, exec.State())
              && heap.refs == old(heap.refs) - ArenaRefs(plan.arena) + ExecRefs(exec.State())
    ensures status != Ok ==> heap.refs == old(heap.refs) - ArenaRefs(plan.arena)
  {
    hide GraphOk, Requirements, RequirementsOk, Fits, GraphRefs, WorksRefs, ArenaRefs, IsSchedule, IsDepthSorted,
         IsCloneOf, FillFails, Heap.Valid;
    ScheduleIndices(order, g.edges, |g.nodes|);
    var made := new GraphExec(plan);
    status := FillExec(made, g, order, device, heap, faults);
    if status != Ok {
      made.Destroy(heap);
      return status, null;
    }
    BuildIcb(made, IcbMissing !in faults, IcbRefused !in faults);
    exec := made;
  }

  /** Everything between the plan and the recording; on failure the exec holds what was built so far. */
  method FillExec(exec: GraphExec, g: Graph, order: seq<nat>, device: nat, heap: Heap, faults: set<InstFault>)
    returns (status: Status)
    requires GraphOk(g.State()) && heap.Valid() && GraphRefs(g.State()) <= heap.refs
    requires IsSchedule(order, g.edges, |g.nodes|)
    requires exec.nodes == [] && !exec.hasWorkspace && exec.inFlight == 0
    requires exec.plan == PlanFor(Requirements(g.nodes, order), g.arena)
    modifies exec, heap
    ensures heap.Valid() && heap.refs == old(heap.refs) + WorksRefs(ExecWorks(exec.nodes))
    ensures exec.plan == old(exec.plan) && exec.inFlight == 0
    ensures status in {Ok, OutOfMemory, BackendError} && (status == Ok <==> !FillFails(g.State(), order, faults))
    ensures status == Ok ==>
              && exec.device == Some(device)
              && exec.hasWorkspace == (exec.plan.totalSize > 0)
              && |exec.nodes| == |order|
              && forall i :: 0 <= i < |order| ==> IsCloneOf(g.nodes[order[i]], exec.plan.records, exec.nodes[i])
  {
    hide GraphOk, GraphRefs, Requirements, WorksRefs, IsCloneOf, WorkSlots, RequirementOf, NodesFail, Heap.Valid;
    exec.device := Some(device);
    NoWorksNoRefs();
    if exec.plan.totalSize > 0 {
      if WorkspaceBuffer in faults {
        return BackendError;
      }
      exec.hasWorkspace := true;
    }
    ScheduleIndices(order, g.edges, |g.nodes|);
    assert exec.plan.records == Layout(Requirements(g.nodes, order));
    forall i | 0 <= i < |order| && RequirementOf(g.nodes[order[i]]).Some?
      ensures exists k :: 0 <= k < |exec.plan.records| && exec.plan.records[k].node == g.nodes[order[i]].id
    {
      LookupIsTotal(g.State(), order, i);
    }
    forall i, r | 0 <= i < |g.nodes| && r in WorkSlots(g.nodes[i].work)
      ensures r in heap.refs
    {
      GraphSlotsAreLive(g.State(), heap.refs, i, r);
    }
    status := Populate(exec, g.nodes, order, heap, faults);
  }

  /** The states of a graph and of a plan under construction are their fields. */
  lemma StateFields(g: Graph, planner: WorkspacePlan)
    ensures g.State() == GraphState(g.nodes, g.edges, g.arena)
    ensures planner.State() == Plan(planner.records, planner.totalSize, planner.alignment, planner.arena)
    ensures planner.State().arena == planner.arena
    ensures forall reqs :: PlanFor(reqs, g.arena).arena == g.arena
  {
  }

  lemma ScheduleIndices(order: seq<nat>, edges: seq<Edge>, n: nat)
    requires IsSchedule(order, edges, n)
    ensures |order| == n && IsSelection(order, n) && forall i :: 0 <= i < |order| ==> order[i] < n
  {
  }

  lemma ArenaIsLive(g: GraphState, refs: multiset<Ref>)
    requires GraphRefs(g) <= refs
    ensures ArenaRefs(g.arena) <= refs
  {
    hide WorksRefs, ArenaRefs;
  }

  function FailingRecords(faults: set<InstFault>): (r: set<nat>)
    ensures forall k: nat :: k in r <==> RecordAlloc(k) in faults
  {
    set f | f in faults && f.RecordAlloc? :: f.k
  }
}
