/** Building a graph (graph.c): adding nodes and dependencies, declaring patchable fields. */
module Builder {
  import opened Prelude
  import opened Bits
  import opened Model
  import opened Heaps
  import opened Validation
  import opened Descriptors
  import opened Topology
  import opened Kahn

  // ---- what is accepted, what is stored, what then holds ----

  function StoredResource(r: Resource): Resource {
    r.(alignment := EffectiveAlignment(r))
  }

  function StoredResources(resources: seq<Resource>): (r: seq<Resource>)
    ensures |r| == |resources|
  {
    seq(|resources|, i requires 0 <= i < |resources| => StoredResource(resources[i]))
  }

  function StoredDispatch(d: DispatchWork): DispatchWork {
    d.(maxGrid := if DimsValid(d.maxGrid) then d.maxGrid else d.grid,
       resources := StoredResources(d.resources))
  }

  function StoredTensors(tensors: seq<Tensor>): (r: seq<Tensor>)
    requires forall i :: 0 <= i < |tensors| ==> TensorDescOk(tensors[i])
    ensures |r| == |tensors|
  {
    seq(|tensors|, i requires 0 <= i < |tensors| && TensorDescOk(tensors[i]) => Resolved(tensors[i]))
  }

  predicate DispatchAcceptable(d: DispatchWork) {
    && DimsValid(d.grid) && DimsValid(d.threads)
    && DimsWithin(d.grid, if DimsValid(d.maxGrid) then d.maxGrid else d.grid)
    && BindingsOk(d.buffers)
    && ScalarsOk(d.scalars)
    && ResourcesOk(d.resources, d.buffers)
  }

  /** The descriptor checks of the `mgGraphAdd...` call for this kind of node. */
  predicate Acceptable(w: Work) {
    match w
    case Dispatch(d) => DispatchAcceptable(d)
    case Copy(c) =>
      RangeValid(c.src.length, c.srcOffset, c.byteCount) && RangeValid(c.dst.length, c.dstOffset, c.byteCount)
    case Fill(f) => RangeValid(f.dst.length, f.dstOffset, f.byteCount)
    case EventWait(_, _) => true
    case EventSignal(_, _) => true
    case Barrier => true
    case TensorGraph(_, feeds, targets) =>
      && |feeds| > 0 && |targets| > 0
      && (forall i :: 0 <= i < |feeds| ==> TensorDescOk(feeds[i]))
      && (forall i :: 0 <= i < |targets| ==> TensorDescOk(targets[i]))
    case Workspace(size, alignment) => size > 0 && AlignmentValid(alignment)
    case WorkspaceFill(size, alignment, _, dst, dstOffset) =>
      size > 0 && AlignmentValid(alignment) && RangeValid(dst.length, dstOffset, size)
  }

  /** What the graph keeps of an accepted descriptor, with its defaults filled in. */
  function Stored(w: Work): Work
    requires Acceptable(w)
  {
    match w
    case Dispatch(d) => Dispatch(StoredDispatch(d))
    case TensorGraph(package, feeds, targets) =>
      TensorGraph(package, StoredTensors(feeds), StoredTensors(targets))
    case _ => w
  }

  /** What is true of every stored node. */
  predicate WorkOk(w: Work) {
    match w
    case Dispatch(d) => DispatchOk(d)
    case TensorGraph(_, feeds, targets) =>
      && (forall i :: 0 <= i < |feeds| ==> TensorOk(feeds[i]))
      && (forall i :: 0 <= i < |targets| ==> TensorOk(targets[i]))
    case _ => Acceptable(w)
  }

  function AllowedFlags(w: Work): set<PatchFlag> {
    match w
    case Dispatch(_) => {DispatchGrid, DispatchBuffer, DispatchScalar}
    case Copy(_) => {CopyBuffer, CopyRange}
    case Fill(_) => {FillBuffer, FillRange, FillValue}
    case EventWait(_, _) => {EventValue}
    case EventSignal(_, _) => {EventValue}
    case _ => {}
  }

  predicate FlagsOk(w: Work, flags: set<PatchFlag>) {
    && flags <= AllowedFlags(w)
    && (w.Dispatch? && DispatchBuffer in flags ==> AllBindingsHaveRange(w.dispatch))
  }

  /** Node identifiers are positions plus one, so they are unique and never zero. */
  ghost predicate GraphOk(g: GraphState) {
    && (forall i :: 0 <= i < |g.nodes| ==>
          && g.nodes[i].id == i + 1
          && WorkOk(g.nodes[i].work)
          && FlagsOk(g.nodes[i].work, g.nodes[i].flags))
    && EdgesInRange(g.edges, |g.nodes|)
    && (forall k :: 0 <= k < |g.edges| ==> g.edges[k].before != g.edges[k].after)
    && (forall j, k :: 0 <= j < k < |g.edges| ==> g.edges[j] != g.edges[k])
  }

  function WithNode(g: GraphState, w: Work): GraphState {
    g.(nodes := g.nodes + [Node(|g.nodes| + 1, {}, w)])
  }

  lemma StoredResourcesOk(resources: seq<Resource>, bindings: seq<Binding>)
    requires ResourcesOk(resources, bindings)
    ensures ResourcesOk(StoredResources(resources), bindings)
  {
    forall i | 0 <= i < |resources|
      ensures ResourceOk(StoredResources(resources)[i], bindings)
    {
      assert ResourceOk(resources[i], bindings);
    }
  }

  /** Whatever is accepted is well formed once stored, and storing it keeps its references. */
  lemma AcceptedIsOk(w: Work)
    requires Acceptable(w)
    ensures WorkOk(Stored(w))
    ensures WorkSlots(Stored(w)) == WorkSlots(w)
  {
    match w
    case Dispatch(d) =>
      StoredResourcesOk(d.resources, d.buffers);
    case TensorGraph(_, feeds, targets) =>
      StoredTensorsOk(feeds);
      StoredTensorsOk(targets);
    case _ =>
  }

  lemma StoredTensorsOk(tensors: seq<Tensor>)
    requires forall i :: 0 <= i < |tensors| ==> TensorDescOk(tensors[i])
    ensures forall i :: 0 <= i < |tensors| ==> TensorOk(StoredTensors(tensors)[i])
    ensures TensorBuffers(StoredTensors(tensors)) == TensorBuffers(tensors)
  {
    forall i | 0 <= i < |tensors|
      ensures TensorOk(StoredTensors(tensors)[i])
    {
      AcceptedTensorFits(tensors[i]);
    }
  }

  /** The contract check is the true one: no sum wraps, and an alignment is a power of two. */
  lemma ContractAdmitted(r: Resource, bindings: seq<Binding>)
    requires BindingsOk(bindings)
    ensures ResourceOk(r, bindings) <==> AdmitsContract(r, bindings)
  {
    hide AlignmentValid, IsPowerOfTwo;
    AlignmentValidIffPowerOfTwo(EffectiveAlignment(r));
    AlignmentValidIffPowerOfTwo(1);
    AlignmentValidOne();
    var k := BindingFor(bindings, r.index);
    if k.Some? {
      assert ResourceOffsetAligned(r, bindings[k.value].offset)
          && ResourceRangeValid(r, bindings[k.value].buffer.length, bindings[k.value].offset)
         <==> ContractFits(r, bindings[k.value]);
    }
  }

  lemma AlignmentValidOne()
    ensures AlignmentValid(1)
  {
  }

  lemma DispatchAdmitted(d: DispatchWork)
    ensures DispatchAcceptable(d) <==> AdmitsDispatch(d)
  {
    hide ResourceOk, AdmitsContract;
    if BindingsOk(d.buffers) {
      forall i | 0 <= i < |d.resources|
        ensures ResourceOk(d.resources[i], d.buffers) <==> AdmitsContract(d.resources[i], d.buffers)
      {
        ContractAdmitted(d.resources[i], d.buffers);
      }
    }
  }

  lemma TensorAdmitted(t: Tensor)
    ensures TensorDescOk(t) <==> AdmitsTensor(t)
  {
    if |t.shape| > 0 && forall i :: 0 <= i < |t.shape| ==> t.shape[i] > 0 {
      ProductGrows(t.shape, 0);
      assert t.shape[..0] == [];
    }
  }

  lemma TensorsAdmitted(tensors: seq<Tensor>)
    ensures (forall i :: 0 <= i < |tensors| ==> TensorDescOk(tensors[i]))
       <==> (forall i :: 0 <= i < |tensors| ==> AdmitsTensor(tensors[i]))
  {
    hide TensorDescOk, AdmitsTensor;
    forall i | 0 <= i < |tensors|
      ensures TensorDescOk(tensors[i]) <==> AdmitsTensor(tensors[i])
    {
      TensorAdmitted(tensors[i]);
    }
  }

  /** The builders' checks, over machine integers and bit tests, accept exactly the descriptors to admit. */
  lemma AcceptableIffAdmitted(w: Work)
    ensures Acceptable(w) <==> Admits(w)
  {
    hide DispatchAcceptable, AdmitsDispatch, TensorDescOk, AdmitsTensor, AlignmentValid, IsPowerOfTwo;
    match w {
      case Dispatch(d) => DispatchAdmitted(d);
      case TensorGraph(_, feeds, targets) =>
        TensorsAdmitted(feeds);
        TensorsAdmitted(targets);
      case Workspace(_, alignment) => AlignmentValidIffPowerOfTwo(alignment);
      case WorkspaceFill(_, alignment, _, _, _) => AlignmentValidIffPowerOfTwo(alignment);
      case _ =>
    }
  }

  /** What is stored is the descriptor, field by field, with its three defaults filled in. */
  lemma StoredKeeps(w: Work)
    requires Acceptable(w)
    ensures Keeps(w, Stored(w))
  {
    hide DispatchAcceptable;
    match w {
      case TensorGraph(_, feeds, targets) =>
        StoredTensorsKeep(feeds);
        StoredTensorsKeep(targets);
      case _ =>
    }
  }

  lemma StoredDispatchKeeps(d: DispatchWork)
    ensures KeepsDispatch(d, StoredDispatch(d))
  {
  }

  lemma StoredTensorsKeep(tensors: seq<Tensor>)
    requires forall i :: 0 <= i < |tensors| ==> TensorDescOk(tensors[i])
    ensures KeepsTensors(tensors, StoredTensors(tensors))
  {
    forall i | 0 <= i < |tensors|
      ensures StoredTensors(tensors)[i] == tensors[i].(byteCount := StoredTensors(tensors)[i].byteCount)
      ensures StoredTensors(tensors)[i].byteCount
           == if tensors[i].byteCount == 0 then ShapeBytes(tensors[i].shape) else tensors[i].byteCount
    {
      assert TensorDescOk(tensors[i]);
    }
  }

  /** On a stored node the search for a contract finds the only one there is. */
  lemma DeclaredBytesFound(d: DispatchWork, i: nat)
    requires ResourcesOk(d.resources, d.buffers) && i < |d.buffers|
    ensures HasRange(d.resources, d.buffers[i].index) <==> HasDeclaredBytes(d, i)
  {
    hide ResourceOk;
    var found := ResourceFor(d.resources, d.buffers[i].index);
    if HasDeclaredBytes(d, i) {
      var k :| 0 <= k < |d.resources| && d.resources[k].index == d.buffers[i].index && d.resources[k].byteCount > 0;
      var j :| 0 <= j < |d.resources| && d.resources[j] == found.value;
      assert j == k;
    }
  }

  /** The flags a node may declare are exactly those of fields it has. */
  lemma FlagsOkIffFields(w: Work, flags: set<PatchFlag>)
    requires WorkOk(w)
    ensures FlagsOk(w, flags) <==> forall f :: f in flags ==> IsFieldOf(w, f)
  {
    hide ResourcesOk, BindingsOk, ScalarsOk, TensorOk, HasRange, HasDeclaredBytes, AlignmentValid, RangeValid;
    if w.Dispatch? {
      forall i | 0 <= i < |w.dispatch.buffers|
        ensures HasRange(w.dispatch.resources, w.dispatch.buffers[i].index) <==> HasDeclaredBytes(w.dispatch, i)
      {
        DeclaredBytesFound(w.dispatch, i);
      }
    }
  }

  /** The new node comes last, with the next identifier, as described and with nothing patchable. */
  ghost predicate NodeAdded(given: Work, g: GraphState, g': GraphState) {
    && g' == g.(nodes := g'.nodes) && |g'.nodes| == |g.nodes| + 1
    && (forall i :: 0 <= i < |g.nodes| ==> g'.nodes[i] == g.nodes[i])
    && var added := g'.nodes[|g.nodes|];
       added.id == |g.nodes| + 1 && added.flags == {} && Keeps(given, added.work)
  }

  lemma AddedAsGiven(given: Work, g: GraphState)
    ensures Acceptable(given) <==> Admits(given)
    ensures Acceptable(given) ==> NodeAdded(given, g, WithNode(g, Stored(given)))
  {
    hide Acceptable, Admits, Stored, Keeps;
    AcceptableIffAdmitted(given);
    if Acceptable(given) {
      StoredKeeps(given);
    }
  }

  /** Adding an accepted node to a well-formed graph keeps it well formed. */
  lemma WithNodeOk(g: GraphState, w: Work)
    requires GraphOk(g) && Acceptable(w)
    ensures GraphOk(WithNode(g, Stored(w)))
    ensures GraphRefs(WithNode(g, Stored(w))) == GraphRefs(g) + WorkRefs(w)
  {
    hide Acceptable, WorkOk, Stored, WorkSlots;
    AcceptedIsOk(w);
    var g' := WithNode(g, Stored(w));
    assert forall i :: 0 <= i < |g.nodes| ==> g'.nodes[i] == g.nodes[i];
    assert GraphWorks(g'.nodes) == GraphWorks(g.nodes) + [Stored(w)];
    WorksRefsSnoc(GraphWorks(g.nodes), Stored(w));
  }

  // ---- the graph object ----

  /** The memory requests of the builders. */
  datatype AddFault =
    | ReserveNodes | NewNode | Strings | BindingTable | ScalarTable | ScalarData(i: nat)
    | ResourceTable | PackagePath | FeedTable | FeedShape(i: nat) | TargetTable | TargetShape(i: nat)

  /** One of the scalar or contract copies a dispatch needs cannot be had. */
  predicate ScalarsOrResourcesFail(d: DispatchWork, faults: set<AddFault>) {
    || (d.scalars != [] && ScalarTable in faults)
    || (exists i :: 0 <= i < |d.scalars| && ScalarData(i) in faults)
    || (d.resources != [] && ResourceTable in faults)
  }

  predicate TensorsFail(tensors: seq<Tensor>, tableFails: bool, shapeFails: set<nat>) {
    tensors != [] && (tableFails || exists i :: 0 <= i < |tensors| && i in shapeFails)
  }

  function FailingFeeds(faults: set<AddFault>): (r: set<nat>)
    ensures forall i :: i in r <==> FeedShape(i) in faults
  {
    set f | f in faults && f.FeedShape? :: f.i
  }

  function FailingTargets(faults: set<AddFault>): (r: set<nat>)
    ensures forall i :: i in r <==> TargetShape(i) in faults
  {
    set f | f in faults && f.TargetShape? :: f.i
  }

  predicate TensorTablesFail(feeds: seq<Tensor>, targets: seq<Tensor>, faults: set<AddFault>) {
    || TensorsFail(feeds, FeedTable in faults, FailingFeeds(faults))
    || TensorsFail(targets, TargetTable in faults, FailingTargets(faults))
  }

  predicate TablesFail(d: DispatchWork, faults: set<AddFault>) {
    (d.buffers != [] && BindingTable in faults) || ScalarsOrResourcesFail(d, faults)
  }

  /** One of the memory requests that adding this very node makes is refused. */
  predicate MemoryFails(w: Work, faults: set<AddFault>) {
    || ReserveNodes in faults || NewNode in faults
    || match w
       case Dispatch(d) => Strings in faults || TablesFail(d, faults)
       case TensorGraph(_, feeds, targets) => PackagePath in faults || TensorTablesFail(feeds, targets, faults)
       case _ => false
  }

  /**
   The outcome every builder owes: a node is added, as described, exactly when its descriptor is one to
   admit and every memory request it makes is met; otherwise graph and reference counts are as before.
   */
  ghost predicate AddOutcome(
    w: Work, faults: set<AddFault>, status: Status,
    g: GraphState, g': GraphState, refs: multiset<Ref>, refs': multiset<Ref>)
  {
    && status in {Ok, InvalidArgument, OutOfMemory}
    && (Acceptable(w) <==> Admits(w))
    && (status == Ok <==> Admits(w) && !MemoryFails(w, faults))
    && (status == InvalidArgument ==> !Admits(w))
    && (status == OutOfMemory ==> MemoryFails(w, faults))
    && (status == Ok ==> NodeAdded(w, g, g'))
    && g' == (if status == Ok then WithNode(g, Stored(w)) else g)
    && refs' == refs + (if status == Ok then WorkRefs(w) else multiset{})
  }

  /** What a caller holds of a node: the graph that owns it and its index there. */
  datatype NodeHandle = NodeHandle(owner: Graph, index: nat)

  class Graph {
    var nodes: seq<Node>
    var edges: seq<Edge>
    var arena: Option<Arena>

    function State(): GraphState
      reads this
    {
      GraphState(nodes, edges, arena)
    }

    constructor ()
      ensures State() == GraphState([], [], None)
    {
      nodes, edges, arena := [], [], None;
    }

    /** A handle on a node of this graph is one the graph gave out; others are another graph's business. */
    predicate Names(handle: NodeHandle)
      reads this
    {
      handle.owner == this ==> handle.index < |nodes|
    }

    method Commit(w: Work)
      modifies this
      ensures State() == WithNode(old(State()), w)
    {
      nodes := nodes + [Node(|nodes| + 1, {}, w)];
    }

    method AddDispatch(heap: Heap, desc: DispatchWork, faults: set<AddFault>) returns (status: Status)
      requires heap.Valid() && forall r :: r in WorkSlots(Dispatch(desc)) ==> r in heap.refs
      modifies this, heap
      ensures heap.Valid()
      ensures AddOutcome(Dispatch(desc), faults, status, old(State()), State(), old(heap.refs), heap.refs)
    {
      hide Admits, NodeAdded;
      AddedAsGiven(Dispatch(desc), State());
      if !DimsValid(desc.grid) || !DimsValid(desc.threads) {
        return InvalidArgument;
      }
      if ReserveNodes in faults || NewNode in faults {
        return OutOfMemory;
      }
      var node;
      status, node := BuildDispatch(heap, desc, faults);
      if status == Ok {
        Commit(Dispatch(node));
      }
    }

    method AddCopy(heap: Heap, desc: CopyWork, faults: set<AddFault>) returns (status: Status)
      requires heap.Valid() && BufferRef(desc.src) in heap.refs && BufferRef(desc.dst) in heap.refs
      modifies this, heap
      ensures heap.Valid()
      ensures AddOutcome(Copy(desc), faults, status, old(State()), State(), old(heap.refs), heap.refs)
    {
      hide WorkRefs, WorkSlots, RangeValid, Admits, NodeAdded, Heap.Valid;
      AddedAsGiven(Copy(desc), State());
      if !RangeValid(desc.src.length, desc.srcOffset, desc.byteCount)
         || !RangeValid(desc.dst.length, desc.dstOffset, desc.byteCount) {
        return InvalidArgument;
      }
      if ReserveNodes in faults || NewNode in faults {
        return OutOfMemory;
      }
      CopyRefs(desc, heap.refs);
      heap.Retain(BufferRef(desc.src));
      heap.Retain(BufferRef(desc.dst));
      Commit(Copy(desc));
      return Ok;
    }

    method AddFill(heap: Heap, desc: FillWork, faults: set<AddFault>) returns (status: Status)
      requires heap.Valid() && BufferRef(desc.dst) in heap.refs
      modifies this, heap
      ensures heap.Valid()
      ensures AddOutcome(Fill(desc), faults, status, old(State()), State(), old(heap.refs), heap.refs)
    {
      hide Admits, NodeAdded;
      AddedAsGiven(Fill(desc), State());
      if !RangeValid(desc.dst.length, desc.dstOffset, desc.byteCount) {
        return InvalidArgument;
      }
      if ReserveNodes in faults || NewNode in faults {
        return OutOfMemory;
      }
      SlotsByKind(Fill(desc));
      heap.Retain(BufferRef(desc.dst));
      Commit(Fill(desc));
      return Ok;
    }

    /** Adds a wait or a signal. */
    method AddEvent(heap: Heap, signals: bool, event: Event, value: nat, faults: set<AddFault>) returns (status: Status)
      requires heap.Valid() && EventRef(event) in heap.refs
      modifies this, heap
      ensures heap.Valid()
      ensures AddOutcome(if signals then EventSignal(event, value) else EventWait(event, value), faults, status,
                         old(State()), State(), old(heap.refs), heap.refs)
    {
      hide Admits, NodeAdded;
      AddedAsGiven(if signals then EventSignal(event, value) else EventWait(event, value), State());
      if ReserveNodes in faults || NewNode in faults {
        return OutOfMemory;
      }
      var w := if signals then EventSignal(event, value) else EventWait(event, value);
      SlotsByKind(w);
      heap.Retain(EventRef(event));
      Commit(w);
      return Ok;
    }

    method AddBarrier(ghost heap: Heap, faults: set<AddFault>) returns (status: Status)
      modifies this
      ensures AddOutcome(Barrier, faults, status, old(State()), State(), old(heap.refs), heap.refs)
    {
      hide Admits, NodeAdded;
      AddedAsGiven(Barrier, State());
      if ReserveNodes in faults || NewNode in faults {
        return OutOfMemory;
      }
      SlotsByKind(Barrier);
      Commit(Barrier);
      return Ok;
    }

    method AddTensorGraph(heap: Heap, package: string, feeds: seq<Tensor>, targets: seq<Tensor>, faults: set<AddFault>)
      returns (status: Status)
      requires heap.Valid()
      requires forall r :: r in WorkSlots(TensorGraph(package, feeds, targets)) ==> r in heap.refs
      modifies this, heap
      ensures heap.Valid()
      ensures AddOutcome(TensorGraph(package, feeds, targets), faults, status,
                         old(State()), State(), old(heap.refs), heap.refs)
    {
      hide Heap.Valid, TensorDescOk, TensorTablesFail, WorkRefs, WorkSlots, Admits, NodeAdded, StoredTensors;
      AddedAsGiven(TensorGraph(package, feeds, targets), State());
      if |feeds| == 0 || |targets| == 0 {
        return InvalidArgument;
      }
      var feedsOk := CheckTensors(feeds);
      if !feedsOk {
        return InvalidArgument;
      }
      var targetsOk := CheckTensors(targets);
      if !targetsOk {
        return InvalidArgument;
      }
      if ReserveNodes in faults || NewNode in faults || PackagePath in faults {
        return OutOfMemory;
      }
      var ok, f, t := BuildTensors(heap, package, feeds, targets, faults);
      if !ok {
        return OutOfMemory;
      }
      Commit(TensorGraph(package, f, t));
      return Ok;
    }

    method AddWorkspace(ghost heap: Heap, size: Size, alignment: Size, faults: set<AddFault>) returns (status: Status)
      modifies this
      ensures AddOutcome(Workspace(size, alignment), faults, status,
                         old(State()), State(), old(heap.refs), heap.refs)
    {
      hide Admits, NodeAdded;
      AddedAsGiven(Workspace(size, alignment), State());
      if size == 0 || !AlignmentValid(alignment) {
        return InvalidArgument;
      }
      if ReserveNodes in faults || NewNode in faults {
        return OutOfMemory;
      }
      SlotsByKind(Workspace(size, alignment));
      Commit(Workspace(size, alignment));
      return Ok;
    }

    method AddWorkspaceFill(
        heap: Heap, size: Size, alignment: Size, byte: nat, dst: Buffer, dstOffset: Size, faults: set<AddFault>)
      returns (status: Status)
      requires heap.Valid() && BufferRef(dst) in heap.refs
      modifies this, heap
      ensures heap.Valid()
      ensures AddOutcome(WorkspaceFill(size, alignment, byte, dst, dstOffset), faults, status,
                         old(State()), State(), old(heap.refs), heap.refs)
    {
      hide Admits, NodeAdded;
      AddedAsGiven(WorkspaceFill(size, alignment, byte, dst, dstOffset), State());
      if size == 0 || !AlignmentValid(alignment) {
        return InvalidArgument;
      }
      if !RangeValid(dst.length, dstOffset, size) {
        return InvalidArgument;
      }
      if ReserveNodes in faults || NewNode in faults {
        return OutOfMemory;
      }
      SlotsByKind(WorkspaceFill(size, alignment, byte, dst, dstOffset));
      heap.Retain(BufferRef(dst));
      Commit(WorkspaceFill(size, alignment, byte, dst, dstOffset));
      return Ok;
    }

    /** Declares which fields of a node later patches may change. */
    method SetNodePatchFlags(handle: NodeHandle, flags: set<PatchFlag>) returns (status: Status)
      requires Names(handle)
      modifies this
      ensures status == if handle.owner == this && FlagsOk(old(nodes)[handle.index].work, flags) then Ok
                        else InvalidArgument
      ensures State() == if status == Ok then WithFlags(old(State()), handle.index, flags) else old(State())
      ensures status == Ok ==>
                && nodes == old(nodes)[handle.index := old(nodes)[handle.index].(flags := flags)]
                && edges == old(edges) && arena == old(arena)
      ensures GraphOk(old(State())) && handle.owner == this ==>
                (status == Ok <==> forall f :: f in flags ==> IsFieldOf(old(nodes)[handle.index].work, f))
    {
      hide IsFieldOf, WorkOk, AllBindingsHaveRange;
      if handle.owner == this && GraphOk(State()) {
        FlagsOkIffFields(nodes[handle.index].work, flags);
      }
      if handle.owner != this {
        return InvalidArgument;
      }
      var index := handle.index;
      var node := nodes[index];
      if !(flags <= AllowedFlags(node.work)) {
        return InvalidArgument;
      }
      if node.work.Dispatch? && DispatchBuffer in flags {
        var complete := CheckAllBindingsHaveRange(node.work.dispatch);
        if !complete {
          return InvalidArgument;
        }
      }
      nodes := nodes[index := node.(flags := flags)];
      return Ok;
    }

    /** Attaches an arena, giving back the one attached before. */
    method SetArena(heap: Heap, next: Arena)
      requires heap.Valid() && ArenaRef(next) in heap.refs && ArenaRefs(arena) <= heap.refs
      modifies this, heap
      ensures heap.Valid() && State() == old(State()).(arena := Some(next))
      ensures heap.refs == old(heap.refs) + ArenaRefs(Some(next)) - ArenaRefs(old(arena))
    {
      hide ArenaRefs, Heap.Valid;
      AttachRefs(arena, next, heap.refs);
      if arena == Some(next) {
        return;
      }
      heap.Retain(ArenaRef(next));
      heap.ReleaseArena(arena);
      arena := Some(next);
    }

    /** Adds an edge once; repeating it is harmless, a self-edge is refused. */
    method AddDependency(from: NodeHandle, to: NodeHandle, allocates: bool) returns (status: Status)
      requires Names(from) && Names(to)
      modifies this
      ensures status == if from.owner != this || to.owner != this then InvalidArgument
                        else if from == to then InvalidTopology
                        else if Edge(from.index, to.index) in old(edges) || allocates then Ok else OutOfMemory
      ensures State() == if status == Ok then WithEdge(old(State()), from.index, to.index) else old(State())
      ensures nodes == old(nodes) && arena == old(arena)
      ensures edges == old(edges) + if status == Ok && Edge(from.index, to.index) !in old(edges)
                                    then [Edge(from.index, to.index)] else []
    {
      if from.owner != this || to.owner != this {
        return InvalidArgument;
      }
      if from == to {
        return InvalidTopology;
      }
      var before, after := from.index, to.index;
      for i := 0 to |edges|
        invariant Edge(before, after) !in edges[..i]
      {
        if edges[i].before == before && edges[i].after == after {
          assert edges[i] == Edge(before, after);
          return Ok;
        }
        assert edges[..i + 1] == edges[..i] + [edges[i]];
      }
      assert edges[..|edges|] == edges;
      if !allocates {
        return OutOfMemory;
      }
      edges := edges + [Edge(before, after)];
      return Ok;
    }

    /** Says whether the graph can be scheduled. */
    method Validate(orderAllocates: bool, scratchAllocates: bool) returns (status: Status)
      ensures status == if |nodes| > 0 && !orderAllocates then OutOfMemory
                        else ScheduleStatus(edges, |nodes|, scratchAllocates)
      ensures GraphOk(State()) ==>
                (status == InvalidTopology <==> HasCycle(edges) && |nodes| > 0 && orderAllocates && scratchAllocates)
    {
      if |nodes| == 0 {
        return Ok;
      }
      if !orderAllocates {
        return OutOfMemory;
      }
      var order := new nat[|nodes|];
      ghost var level;
      status, level := TopologicalOrder(|nodes|, edges, order, scratchAllocates);
    }

    /** Frees the graph: every reference it holds goes back. */
    method Destroy(heap: Heap)
      requires heap.Valid() && GraphRefs(State()) <= heap.refs
      modifies this, heap
      ensures heap.Valid() && heap.refs == old(heap.refs) - GraphRefs(old(State()))
      ensures State() == GraphState([], [], None)
    {
      hide WorksRefs, ArenaRefs, Heap.Valid;
      heap.ReleaseWorks(GraphWorks(nodes));
      heap.ReleaseArena(arena);
      nodes, edges, arena := [], [], None;
    }
  }

  function WithFlags(g: GraphState, index: nat, flags: set<PatchFlag>): GraphState
    requires index < |g.nodes|
  {
    g.(nodes := g.nodes[index := g.nodes[index].(flags := flags)])
  }

  function WithEdge(g: GraphState, before: nat, after: nat): GraphState {
    if Edge(before, after) in g.edges then g else g.(edges := g.edges + [Edge(before, after)])
  }

  lemma WithFlagsOk(g: GraphState, index: nat, flags: set<PatchFlag>)
    requires GraphOk(g) && index < |g.nodes| && FlagsOk(g.nodes[index].work, flags)
    ensures GraphOk(WithFlags(g, index, flags))
    ensures GraphRefs(WithFlags(g, index, flags)) == GraphRefs(g)
  {
    assert GraphWorks(WithFlags(g, index, flags).nodes) == GraphWorks(g.nodes);
  }

  lemma WithEdgeOk(g: GraphState, before: nat, after: nat)
    requires GraphOk(g) && before < |g.nodes| && after < |g.nodes| && before != after
    ensures GraphOk(WithEdge(g, before, after))
    ensures GraphRefs(WithEdge(g, before, after)) == GraphRefs(g)
    ensures Edge(before, after) in WithEdge(g, before, after).edges
  {
  }

  // ---- pieces of the builders ----

  lemma AttachRefs(arena: Option<Arena>, next: Arena, refs: multiset<Ref>)
    requires ArenaRefs(arena) <= refs
    ensures ArenaRefs(Some(next)) == multiset{ArenaRef(next)} && ArenaRefs(arena) <= refs + multiset{ArenaRef(next)}
    ensures arena == Some(next) ==> refs + ArenaRefs(Some(next)) - ArenaRefs(arena) == refs
  {
  }

  lemma CopyRefs(c: CopyWork, refs: multiset<Ref>)
    ensures refs + multiset{BufferRef(c.src)} + multiset{BufferRef(c.dst)} == refs + WorkRefs(Copy(c))
  {
    SlotsByKind(Copy(c));
    assert WorkRefs(Copy(c)) == multiset{BufferRef(c.src), BufferRef(c.dst)};
  }

  /** The checks of the dispatch builder that follow the node's allocation. */
  method CheckDispatch(desc: DispatchWork, maxGrid: Dims) returns (ok: bool)
    ensures ok <==> && BindingsOk(desc.buffers) && ScalarsOk(desc.scalars)
                    && ResourcesOk(desc.resources, desc.buffers) && DimsWithin(desc.grid, maxGrid)
  {
    ok := CheckBindings(desc.buffers);
    if !ok {
      return;
    }
    ok := CheckScalars(desc.scalars);
    if !ok {
      return;
    }
    ok := CheckResources(desc.resources, desc.buffers);
    if !ok {
      return;
    }
    ok := DimsWithin(desc.grid, maxGrid);
  }

  lemma SameBindingsSameRefs(d: DispatchWork, e: DispatchWork)
    requires d.buffers == e.buffers
    ensures WorkRefs(Dispatch(d)) == WorkRefs(Dispatch(e))
  {
  }

  lemma NoBindingsNoRefs(d: DispatchWork)
    requires d.buffers == []
    ensures WorkRefs(Dispatch(d)) == multiset{}
  {
    assert WorkSlots(Dispatch(d)) == [];
  }

  /** Fills a dispatch node from a descriptor; when it cannot, whatever was retained goes back. */
  method BuildDispatch(heap: Heap, desc: DispatchWork, faults: set<AddFault>)
    returns (status: Status, node: DispatchWork)
    requires heap.Valid() && forall r :: r in WorkSlots(Dispatch(desc)) ==> r in heap.refs
    requires DimsValid(desc.grid) && DimsValid(desc.threads)
    modifies heap
    ensures heap.Valid() && status in {Ok, InvalidArgument, OutOfMemory}
    ensures status == Ok ==> DispatchAcceptable(desc) && node == StoredDispatch(desc) && KeepsDispatch(desc, node)
    ensures status == InvalidArgument ==> !DispatchAcceptable(desc)
    ensures status == OutOfMemory ==> Strings in faults || TablesFail(desc, faults)
    ensures status == Ok ==> Strings !in faults && !TablesFail(desc, faults)
    ensures heap.refs == old(heap.refs) + (if status == Ok then WorkRefs(Dispatch(desc)) else multiset{})
  {
    hide WorkRefs, BindingsOk, ScalarsOk, ResourcesOk, DimsWithin, KeepsDispatch;
    node := DispatchWork(desc.metallib, desc.kernel, desc.grid, desc.threads,
                         if DimsValid(desc.maxGrid) then desc.maxGrid else desc.grid, [], [], []);
    NoBindingsNoRefs(node);
    if Strings in faults {
      heap.ReleaseWork(Dispatch(node));
      return OutOfMemory, node;
    }
    var valid := CheckDispatch(desc, node.maxGrid);
    if !valid {
      heap.ReleaseWork(Dispatch(node));
      return InvalidArgument, node;
    }
    status, node := CopyTables(heap, desc, node, faults);
    if status != Ok {
      heap.ReleaseWork(Dispatch(node));
    } else {
      SameBindingsSameRefs(desc, node);
      StoredDispatchKeeps(desc);
    }
  }

  /** Copies the three tables into a node; on failure the node holds what was retained so far. */
  method CopyTables(heap: Heap, desc: DispatchWork, node: DispatchWork, faults: set<AddFault>)
    returns (status: Status, out: DispatchWork)
    requires heap.Valid() && forall r :: r in WorkSlots(Dispatch(desc)) ==> r in heap.refs
    requires node.buffers == [] && node.scalars == [] && node.resources == []
    modifies heap
    ensures heap.Valid() && status == if TablesFail(desc, faults) then OutOfMemory else Ok
    ensures heap.refs == old(heap.refs) + WorkRefs(Dispatch(out))
    ensures status == Ok ==> out == node.(buffers := desc.buffers, scalars := desc.scalars,
                                          resources := StoredResources(desc.resources))
  {
    hide WorkSlots;
    out := node;
    SlotsByKind(Dispatch(desc));
    SlotsByKind(Dispatch(node));
    if |desc.buffers| > 0 {
      if BindingTable in faults {
        return OutOfMemory, out;
      }
      out := out.(buffers := desc.buffers);
      heap.RetainAll(BufferSlots(BindingBuffers(desc.buffers)));
    }
    assert out == node.(buffers := desc.buffers);
    status, out := CopyScalarsAndResources(desc, out, faults);
    SlotsByKind(Dispatch(out));
  }

  method CopyScalarsAndResources(desc: DispatchWork, node: DispatchWork, faults: set<AddFault>)
    returns (status: Status, out: DispatchWork)
    requires node.scalars == [] && node.resources == []
    ensures status == if ScalarsOrResourcesFail(desc, faults) then OutOfMemory else Ok
    ensures out.buffers == node.buffers
    ensures status == Ok ==>
              out == node.(scalars := desc.scalars, resources := StoredResources(desc.resources))
  {
    out := node;
    if |desc.scalars| > 0 {
      if ScalarTable in faults {
        return OutOfMemory, out;
      }
      for i := 0 to |desc.scalars|
        invariant out == node.(scalars := desc.scalars[..i])
        invariant forall k :: 0 <= k < i ==> ScalarData(k) !in faults
      {
        if ScalarData(i) in faults {
          return OutOfMemory, out;
        }
        assert desc.scalars[..i + 1] == desc.scalars[..i] + [desc.scalars[i]];
        out := out.(scalars := out.scalars + [desc.scalars[i]]);
      }
      assert desc.scalars[..|desc.scalars|] == desc.scalars;
    }
    if |desc.resources| > 0 {
      if ResourceTable in faults {
        return OutOfMemory, out;
      }
      var resources := desc.resources;
      for i := 0 to |desc.resources|
        invariant |resources| == |desc.resources|
        invariant forall k :: 0 <= k < |resources| ==>
                    resources[k] == if k < i then StoredResource(desc.resources[k]) else desc.resources[k]
      {
        if resources[i].alignment == 0 {
          resources := resources[i := resources[i].(alignment := 1)];
        }
      }
      out := out.(resources := resources);
    }
    return Ok, out;
  }

  function TensorRefs(tensors: seq<Tensor>): multiset<Ref> {
    multiset(BufferSlots(TensorBuffers(tensors)))
  }

  lemma TensorGraphRefs(package: string, feeds: seq<Tensor>, targets: seq<Tensor>)
    ensures WorkRefs(TensorGraph(package, feeds, targets)) == TensorRefs(feeds) + TensorRefs(targets)
  {
    SlotsByKind(TensorGraph(package, feeds, targets));
  }

  /** Clones feeds, then targets; when the targets fail, the feeds go back. */
  method BuildTensors(heap: Heap, package: string, feeds: seq<Tensor>, targets: seq<Tensor>, faults: set<AddFault>)
    returns (ok: bool, f: seq<Tensor>, t: seq<Tensor>)
    requires heap.Valid()
    requires forall r :: r in WorkSlots(TensorGraph(package, feeds, targets)) ==> r in heap.refs
    requires forall i :: 0 <= i < |feeds| ==> TensorDescOk(feeds[i])
    requires forall i :: 0 <= i < |targets| ==> TensorDescOk(targets[i])
    modifies heap
    ensures heap.Valid() && (ok <==> !TensorTablesFail(feeds, targets, faults))
    ensures ok ==> f == StoredTensors(feeds) && t == StoredTensors(targets)
    ensures heap.refs == old(heap.refs)
                       + (if ok then WorkRefs(TensorGraph(package, feeds, targets)) else multiset{})
  {
    hide WorkRefs, WorkSlots, TensorDescOk, TensorRefs, StoredTensors, TensorsFail, Heap.Valid;
    SlotsByKind(TensorGraph(package, feeds, targets));
    TensorGraphRefs(package, feeds, targets);
    t := [];
    ok, f := CloneTensors(heap, feeds, FeedTable in faults, FailingFeeds(faults));
    if !ok {
      return;
    }
    ok, t := CloneTensors(heap, targets, TargetTable in faults, FailingTargets(faults));
    if !ok {
      StoredTensorsOk(feeds);
      SameTensorsSameRefs(feeds, f);
      ReleaseTensors(heap, f);
    }
  }

  lemma SameTensorsSameRefs(a: seq<Tensor>, b: seq<Tensor>)
    requires TensorBuffers(a) == TensorBuffers(b)
    ensures TensorRefs(a) == TensorRefs(b)
  {
  }

  method ReleaseTensors(heap: Heap, tensors: seq<Tensor>)
    requires heap.Valid() && TensorRefs(tensors) <= heap.refs
    modifies heap
    ensures heap.Valid() && heap.refs == old(heap.refs) - TensorRefs(tensors)
  {
    heap.ReleaseAll(BufferSlots(TensorBuffers(tensors)));
  }

  /** Copies tensor descriptors with their defaults resolved; on failure nothing stays retained. */
  method CloneTensors(heap: Heap, tensors: seq<Tensor>, tableFails: bool, shapeFails: set<nat>)
    returns (ok: bool, out: seq<Tensor>)
    requires heap.Valid() && forall i :: 0 <= i < |tensors| ==> TensorDescOk(tensors[i])
    requires forall r :: r in BufferSlots(TensorBuffers(tensors)) ==> r in heap.refs
    modifies heap
    ensures heap.Valid() && (ok <==> !TensorsFail(tensors, tableFails, shapeFails))
    ensures ok ==> out == StoredTensors(tensors)
    ensures heap.refs == old(heap.refs) + (if ok then TensorRefs(tensors) else multiset{})
  {
    hide TensorDescOk, TensorRefs, Resolved, TensorBuffers, BufferSlots, ClonedSoFar, Heap.Valid;
    out := [];
    NothingCloned(tensors);
    if |tensors| == 0 {
      return true, out;
    }
    if tableFails {
      return false, [];
    }
    for i := 0 to |tensors|
      invariant heap.Valid() && ClonedSoFar(tensors, out, i)
      invariant heap.refs == old(heap.refs) + TensorRefs(tensors[..i])
      invariant forall k :: 0 <= k < i ==> k !in shapeFails
    {
      if i in shapeFails {
        ClonedKeepRefs(tensors, out, i);
        ReleaseTensors(heap, out);
        return false, [];
      }
      var t := Resolve(tensors[i]);
      OneClonedMore(tensors, out, i);
      TensorRefsStep(tensors, i);
      out := out + [t];
      heap.Retain(BufferRef(tensors[i].buffer));
    }
    AllCloned(tensors, out);
    return true, out;
  }

  /** The first `i` tensors have been cloned. */
  ghost predicate ClonedSoFar(tensors: seq<Tensor>, out: seq<Tensor>, i: nat)
    requires forall k :: 0 <= k < |tensors| ==> TensorDescOk(tensors[k])
  {
    |out| == i <= |tensors| && forall k :: 0 <= k < i ==> out[k] == Resolved(tensors[k])
  }

  lemma NothingCloned(tensors: seq<Tensor>)
    requires forall k :: 0 <= k < |tensors| ==> TensorDescOk(tensors[k])
    ensures ClonedSoFar(tensors, [], 0) && tensors[..0] == [] && TensorRefs([]) == multiset{}
    ensures |tensors| == 0 ==> TensorRefs(tensors) == multiset{} && StoredTensors(tensors) == []
  {
    NoTensorsNoRefs();
    assert |tensors| == 0 ==> tensors == [];
  }

  lemma OneClonedMore(tensors: seq<Tensor>, out: seq<Tensor>, i: nat)
    requires forall k :: 0 <= k < |tensors| ==> TensorDescOk(tensors[k])
    requires i < |tensors| && ClonedSoFar(tensors, out, i)
    ensures ClonedSoFar(tensors, out + [Resolved(tensors[i])], i + 1)
  {
    hide TensorDescOk, Resolved;
  }

  lemma AllCloned(tensors: seq<Tensor>, out: seq<Tensor>)
    requires forall k :: 0 <= k < |tensors| ==> TensorDescOk(tensors[k])
    requires ClonedSoFar(tensors, out, |tensors|)
    ensures out == StoredTensors(tensors) && tensors[..|tensors|] == tensors
  {
    hide TensorDescOk, Resolved;
  }

  lemma ClonedKeepRefs(tensors: seq<Tensor>, out: seq<Tensor>, i: nat)
    requires forall k :: 0 <= k < |tensors| ==> TensorDescOk(tensors[k])
    requires ClonedSoFar(tensors, out, i)
    ensures TensorRefs(out) == TensorRefs(tensors[..i])
  {
    hide TensorDescOk;
    assert TensorBuffers(out) == TensorBuffers(tensors[..i]);
  }

  lemma NoTensorsNoRefs()
    ensures TensorRefs([]) == multiset{}
  {
    assert BufferSlots(TensorBuffers([])) == [];
  }

  lemma TensorRefsStep(tensors: seq<Tensor>, i: nat)
    requires i < |tensors|
    ensures TensorRefs(tensors[..i + 1]) == TensorRefs(tensors[..i]) + multiset{BufferRef(tensors[i].buffer)}
    ensures BufferRef(tensors[i].buffer) in BufferSlots(TensorBuffers(tensors))
  {
    var slots := BufferSlots(TensorBuffers(tensors[..i]));
    assert BufferSlots(TensorBuffers(tensors[..i + 1])) == slots + [BufferRef(tensors[i].buffer)];
    assert BufferSlots(TensorBuffers(tensors))[i] == BufferRef(tensors[i].buffer);
  }
}
