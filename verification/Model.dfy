/**
 The values the runtime works on: the immutable part of buffers, events and arenas, what a graph
 node does, and which references a node holds.

 A `Buffer`, `Event` or `Arena` value stands for a pointer to such an object: its address and the
 fields that never change after creation. The one field that does change, the reference count, is
 kept by `Heap`.
 */
module Model {
  import opened Prelude
  import opened Sums

  /** The Metal buffer behind a wrapper. */
  datatype Metal = Metal(handle: nat, length: Size)

  /** A window of `length` bytes at `byteOffset` of a Metal buffer. */
  datatype Buffer = Buffer(address: nat, device: nat, metal: Metal, length: Size, byteOffset: Size)

  datatype Event = Event(address: nat)

  datatype Arena = Arena(address: nat, size: Size, alignment: Size)

  /** A counted reference to one of the three kinds of shared object. */
  datatype Ref =
    | BufferRef(buffer: Buffer)
    | EventRef(event: Event)
    | ArenaRef(arena: Arena)

  // ---- node payloads ----

  datatype Dims = Dims(x: nat, y: nat, z: nat)

  datatype Binding = Binding(index: nat, buffer: Buffer, offset: Size)

  datatype Scalar = Scalar(index: nat, data: seq<nat>)

  /** `OtherAccess` stands for an integer that names none of the declared modes. */
  datatype Access = UnknownAccess | Read | Write | ReadWrite | OtherAccess(code: int)

  datatype Resource = Resource(
    index: nat, access: Access, byteOffset: Size, byteCount: Size, alignment: Size)

  datatype DataType = Float32 | OtherType(code: int)

  datatype TensorLayout = Contiguous | OtherLayout(code: int)

  datatype Tensor = Tensor(
    buffer: Buffer, byteOffset: Size, byteCount: Size, dataType: DataType, layout: TensorLayout,
    shape: seq<Size>)

  datatype DispatchWork = DispatchWork(
    metallib: string, kernel: string, grid: Dims, threads: Dims, maxGrid: Dims,
    buffers: seq<Binding>, scalars: seq<Scalar>, resources: seq<Resource>)

  datatype CopyWork = CopyWork(
    src: Buffer, srcOffset: Size, dst: Buffer, dstOffset: Size, byteCount: Size)

  datatype FillWork = FillWork(dst: Buffer, dstOffset: Size, byteCount: Size, value: nat)

  /** What a node does. The two workspace kinds are internal to the library. */
  datatype Work =
    | Dispatch(dispatch: DispatchWork)
    | Copy(copy: CopyWork)
    | Fill(fill: FillWork)
    | EventWait(event: Event, value: nat)
    | EventSignal(event: Event, value: nat)
    | Barrier
    | TensorGraph(package: string, feeds: seq<Tensor>, targets: seq<Tensor>)
    | Workspace(size: Size, alignment: Size)
    | WorkspaceFill(size: Size, alignment: Size, byte: nat, dst: Buffer, dstOffset: Size)

  /** Patchable fields; `OtherFlag` is a bit with no declared meaning. */
  datatype PatchFlag =
    | DispatchGrid | DispatchBuffer | DispatchScalar
    | CopyBuffer | CopyRange
    | FillBuffer | FillRange | FillValue
    | EventValue
    | OtherFlag(bit: nat)

  // ---- graphs ----

  type NodeId = nat

  datatype Node = Node(id: NodeId, flags: set<PatchFlag>, work: Work)

  datatype Edge = Edge(before: nat, after: nat)

  datatype GraphState = GraphState(nodes: seq<Node>, edges: seq<Edge>, arena: Option<Arena>)

  // ---- references held ----

  function BindingBuffers(bindings: seq<Binding>): (r: seq<Buffer>)
    ensures |r| == |bindings|
  {
    seq(|bindings|, i requires 0 <= i < |bindings| => bindings[i].buffer)
  }

  function TensorBuffers(tensors: seq<Tensor>): (r: seq<Buffer>)
    ensures |r| == |tensors|
  {
    seq(|tensors|, i requires 0 <= i < |tensors| => tensors[i].buffer)
  }

  /** The buffers a node refers to, one entry per slot, in the order a launch retains them. */
  function WorkBuffers(w: Work): seq<Buffer> {
    match w
    case Dispatch(d) => BindingBuffers(d.buffers)
    case Copy(c) => [c.src, c.dst]
    case Fill(f) => [f.dst]
    case TensorGraph(_, feeds, targets) => TensorBuffers(feeds) + TensorBuffers(targets)
    case WorkspaceFill(_, _, _, dst, _) => [dst]
    case _ => []
  }

  function WorkEvents(w: Work): seq<Event> {
    match w
    case EventWait(e, _) => [e]
    case EventSignal(e, _) => [e]
    case _ => []
  }

  function BufferSlots(buffers: seq<Buffer>): (r: seq<Ref>)
    ensures |r| == |buffers|
  {
    seq(|buffers|, i requires 0 <= i < |buffers| => BufferRef(buffers[i]))
  }

  function EventSlots(events: seq<Event>): (r: seq<Ref>)
    ensures |r| == |events|
  {
    seq(|events|, i requires 0 <= i < |events| => EventRef(events[i]))
  }

  function ArenaRefs(arena: Option<Arena>): multiset<Ref> {
    if arena.Some? then multiset{ArenaRef(arena.value)} else multiset{}
  }

  /** One reference per slot of the node. */
  function WorkSlots(w: Work): seq<Ref> {
    BufferSlots(WorkBuffers(w)) + EventSlots(WorkEvents(w))
  }

  function WorkRefs(w: Work): multiset<Ref> {
    multiset(WorkSlots(w))
  }

  function Shares(works: seq<Work>): (r: seq<multiset<Ref>>)
    ensures |r| == |works|
  {
    seq(|works|, i requires 0 <= i < |works| => WorkRefs(works[i]))
  }

  function WorksRefs(works: seq<Work>): multiset<Ref> {
    Sum(Shares(works))
  }

  function GraphWorks(nodes: seq<Node>): (works: seq<Work>)
    ensures |works| == |nodes|
  {
    seq(|nodes|, i requires 0 <= i < |nodes| => nodes[i].work)
  }

  function GraphRefs(g: GraphState): multiset<Ref> {
    WorksRefs(GraphWorks(g.nodes)) + ArenaRefs(g.arena)
  }

  // ---- facts about references ----

  /** The references of each kind of node, spelled out. */
  lemma SlotsByKind(w: Work)
    ensures w.Dispatch? ==> WorkSlots(w) == BufferSlots(BindingBuffers(w.dispatch.buffers))
    ensures w.TensorGraph? ==>
              WorkSlots(w) == BufferSlots(TensorBuffers(w.feeds)) + BufferSlots(TensorBuffers(w.targets))
    ensures w.Copy? ==> WorkSlots(w) == [BufferRef(w.copy.src), BufferRef(w.copy.dst)]
    ensures w.Fill? ==> WorkSlots(w) == [BufferRef(w.fill.dst)]
    ensures w.WorkspaceFill? ==> WorkSlots(w) == [BufferRef(w.dst)]
    ensures w.EventWait? || w.EventSignal? ==> WorkSlots(w) == [EventRef(w.event)]
    ensures w.Barrier? || w.Workspace? ==> WorkSlots(w) == []
  {
  }

  lemma WorksRefsSnoc(works: seq<Work>, w: Work)
    ensures WorksRefs(works + [w]) == WorksRefs(works) + WorkRefs(w)
  {
    hide WorkRefs;
    assert Shares(works + [w]) == Shares(works) + [WorkRefs(w)];
    SumSnoc(Shares(works), WorkRefs(w));
  }

  /** Replacing one node's work exchanges exactly its references. */
  lemma WorksRefsUpdate(works: seq<Work>, k: nat, w: Work)
    requires k < |works|
    ensures WorkRefs(works[k]) <= WorksRefs(works)
    ensures WorksRefs(works[k := w]) == WorksRefs(works) - WorkRefs(works[k]) + WorkRefs(w)
  {
    hide WorkRefs;
    assert Shares(works[k := w]) == Shares(works)[k := WorkRefs(w)];
    SumUpdate(Shares(works), k, WorkRefs(w));
  }

  lemma InWorksRefs(works: seq<Work>, r: Ref)
    ensures r in WorksRefs(works) <==> exists i :: 0 <= i < |works| && r in WorkRefs(works[i])
  {
    hide WorkRefs, Sum;
    InSum(Shares(works), r);
    assert forall i :: 0 <= i < |works| ==> Shares(works)[i] == WorkRefs(works[i]);
  }
}
