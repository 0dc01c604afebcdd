/**
 Nodes from the caller's side: which descriptors the builders admit, told from their fields, what the
 graph then keeps of them, and which objects a node names.
 */
module Descriptors {
  import opened Prelude
  import opened Bits
  import opened Model
  import opened Validation

  // ---- what is admitted ----

  predicate AxesPositive(d: Dims) {
    d.x > 0 && d.y > 0 && d.z > 0
  }

  /** A nonempty range of bytes that ends inside the buffer. */
  predicate RangeInside(b: Buffer, offset: Size, count: Size) {
    count > 0 && offset + count <= b.length
  }

  /** A contract fits a binding: aligned there, and inside the buffer even when it declares no bytes. */
  predicate ContractFits(r: Resource, b: Binding) {
    && r.index == b.index
    && (r.alignment == 0 || (b.offset + r.byteOffset) % r.alignment == 0)
    && b.offset + r.byteOffset + r.byteCount <= b.buffer.length
  }

  ghost predicate AdmitsContract(r: Resource, bindings: seq<Binding>) {
    && r.access in {UnknownAccess, Read, Write, ReadWrite}
    && (r.alignment == 0 || IsPowerOfTwo(r.alignment))
    && exists k :: 0 <= k < |bindings| && ContractFits(r, bindings[k])
  }

  ghost predicate AdmitsDispatch(d: DispatchWork) {
    && AxesPositive(d.grid) && AxesPositive(d.threads)
    && (AxesPositive(d.maxGrid) ==>
          d.grid.x <= d.maxGrid.x && d.grid.y <= d.maxGrid.y && d.grid.z <= d.maxGrid.z)
    && (forall i :: 0 <= i < |d.buffers| ==> d.buffers[i].offset <= d.buffers[i].buffer.length)
    && (forall i, j :: 0 <= i < j < |d.buffers| ==> d.buffers[i].index != d.buffers[j].index)
    && (forall i :: 0 <= i < |d.scalars| ==> d.scalars[i].data != [])
    && (forall i :: 0 <= i < |d.resources| ==> AdmitsContract(d.resources[i], d.buffers))
    && (forall i, j :: 0 <= i < j < |d.resources| ==> d.resources[i].index != d.resources[j].index)
  }

  /** The bytes of a shape of 32-bit elements. */
  function ShapeBytes(shape: seq<Size>): nat {
    Product(shape) * 4
  }

  /** A contiguous tensor of 32-bit floats at the very start of its Metal buffer, with room for every element. */
  predicate AdmitsTensor(t: Tensor) {
    && t.layout == Contiguous && t.dataType == Float32
    && |t.shape| > 0 && (forall i :: 0 <= i < |t.shape| ==> t.shape[i] > 0)
    && t.byteOffset == 0 && t.buffer.byteOffset == 0
    && ShapeBytes(t.shape) <= t.buffer.length
    && (t.byteCount != 0 ==> ShapeBytes(t.shape) <= t.byteCount <= t.buffer.length)
  }

  ghost predicate Admits(w: Work) {
    match w
    case Dispatch(d) => AdmitsDispatch(d)
    case Copy(c) => RangeInside(c.src, c.srcOffset, c.byteCount) && RangeInside(c.dst, c.dstOffset, c.byteCount)
    case Fill(f) => RangeInside(f.dst, f.dstOffset, f.byteCount)
    case EventWait(_, _) => true
    case EventSignal(_, _) => true
    case Barrier => true
    case TensorGraph(_, feeds, targets) =>
      && feeds != [] && targets != []
      && (forall i :: 0 <= i < |feeds| ==> AdmitsTensor(feeds[i]))
      && (forall i :: 0 <= i < |targets| ==> AdmitsTensor(targets[i]))
    case Workspace(size, alignment) => size > 0 && IsPowerOfTwo(alignment)
    case WorkspaceFill(size, alignment, _, dst, dstOffset) =>
      IsPowerOfTwo(alignment) && RangeInside(dst, dstOffset, size)
  }

  // ---- what is kept ----

  /** The same contract, with an alignment of one where none was given. */
  predicate KeepsContract(given: Resource, kept: Resource) {
    && kept == given.(alignment := kept.alignment)
    && kept.alignment == (if given.alignment == 0 then 1 else given.alignment)
  }

  predicate KeepsDispatch(given: DispatchWork, kept: DispatchWork) {
    && kept.metallib == given.metallib && kept.kernel == given.kernel
    && kept.grid == given.grid && kept.threads == given.threads
    && kept.buffers == given.buffers && kept.scalars == given.scalars
    && kept.maxGrid == (if AxesPositive(given.maxGrid) then given.maxGrid else given.grid)
    && |kept.resources| == |given.resources|
    && forall i :: 0 <= i < |given.resources| ==> KeepsContract(given.resources[i], kept.resources[i])
  }

  /** The same tensors, each with the exact size of its shape where no size was given. */
  predicate KeepsTensors(given: seq<Tensor>, kept: seq<Tensor>) {
    && |kept| == |given|
    && forall i :: 0 <= i < |given| ==>
         && kept[i].buffer == given[i].buffer && kept[i].byteOffset == given[i].byteOffset
         && kept[i].dataType == given[i].dataType && kept[i].layout == given[i].layout
         && kept[i].shape == given[i].shape
         && kept[i].byteCount == if given[i].byteCount == 0 then ShapeBytes(given[i].shape) else given[i].byteCount
  }

  /** The kind and every field of the descriptor, but for the three defaults. */
  predicate Keeps(given: Work, kept: Work) {
    match given
    case Dispatch(d) => kept.Dispatch? && KeepsDispatch(d, kept.dispatch)
    case TensorGraph(package, feeds, targets) =>
      && kept.TensorGraph? && kept.package == package
      && KeepsTensors(feeds, kept.feeds) && KeepsTensors(targets, kept.targets)
    case _ => kept == given
  }

  // ---- what may be declared patchable ----

  /** Some contract names the binding's index and declares bytes. */
  predicate HasDeclaredBytes(d: DispatchWork, i: nat)
    requires i < |d.buffers|
  {
    exists k :: 0 <= k < |d.resources| && d.resources[k].index == d.buffers[i].index && d.resources[k].byteCount > 0
  }

  /** The node has such a field; bindings can be declared only where every one has a contract with bytes. */
  predicate IsFieldOf(w: Work, flag: PatchFlag) {
    match flag
    case DispatchGrid => w.Dispatch?
    case DispatchBuffer =>
      w.Dispatch? && forall i :: 0 <= i < |w.dispatch.buffers| ==> HasDeclaredBytes(w.dispatch, i)
    case DispatchScalar => w.Dispatch?
    case CopyBuffer => w.Copy?
    case CopyRange => w.Copy?
    case FillBuffer => w.Fill?
    case FillRange => w.Fill?
    case FillValue => w.Fill?
    case EventValue => w.EventWait? || w.EventSignal?
    case OtherFlag(_) => false
  }

  // ---- what a node names ----

  /** The objects a node names, field by field. */
  predicate Names(w: Work, r: Ref) {
    match w
    case Dispatch(d) => exists i :: 0 <= i < |d.buffers| && r == BufferRef(d.buffers[i].buffer)
    case Copy(c) => r == BufferRef(c.src) || r == BufferRef(c.dst)
    case Fill(f) => r == BufferRef(f.dst)
    case EventWait(e, _) => r == EventRef(e)
    case EventSignal(e, _) => r == EventRef(e)
    case Barrier => false
    case TensorGraph(_, feeds, targets) =>
      || (exists i :: 0 <= i < |feeds| && r == BufferRef(feeds[i].buffer))
      || (exists i :: 0 <= i < |targets| && r == BufferRef(targets[i].buffer))
    case Workspace(_, _) => false
    case WorkspaceFill(_, _, _, dst, _) => r == BufferRef(dst)
  }

  /** How many of its fields do. */
  function Slots(w: Work): nat {
    match w
    case Dispatch(d) => |d.buffers|
    case Copy(_) => 2
    case Fill(_) => 1
    case EventWait(_, _) => 1
    case EventSignal(_, _) => 1
    case Barrier => 0
    case TensorGraph(_, feeds, targets) => |feeds| + |targets|
    case Workspace(_, _) => 0
    case WorkspaceFill(_, _, _, _, _) => 1
  }

  /** A node holds references to exactly the objects it names, one for each field that names one. */
  lemma HoldsWhatItNames(w: Work, r: Ref)
    ensures r in WorkRefs(w) <==> Names(w, r)
    ensures |WorkRefs(w)| == Slots(w)
  {
    hide WorkSlots, Names;
    assert |multiset(WorkSlots(w))| == |WorkSlots(w)|;
    SlotsNameFields(w, r);
  }

  lemma SlotsNameFields(w: Work, r: Ref)
    ensures (r in WorkSlots(w) <==> Names(w, r)) && |WorkSlots(w)| == Slots(w)
  {
    hide BindingBuffers, TensorBuffers, BufferSlots, EventSlots, WorkBuffers, WorkEvents, WorkSlots;
    SlotsByKind(w);
    if w.Dispatch? {
      BindingSlots(w.dispatch.buffers, r);
    } else if w.TensorGraph? {
      TensorSlots(w.feeds, r);
      TensorSlots(w.targets, r);
    }
  }

  lemma BindingSlots(bindings: seq<Binding>, r: Ref)
    ensures r in BufferSlots(BindingBuffers(bindings))
       <==> exists i :: 0 <= i < |bindings| && r == BufferRef(bindings[i].buffer)
  {
    var slots := BufferSlots(BindingBuffers(bindings));
    assert forall i :: 0 <= i < |bindings| ==> slots[i] == BufferRef(bindings[i].buffer);
  }

  lemma TensorSlots(tensors: seq<Tensor>, r: Ref)
    ensures r in BufferSlots(TensorBuffers(tensors))
       <==> exists i :: 0 <= i < |tensors| && r == BufferRef(tensors[i].buffer)
  {
    var slots := BufferSlots(TensorBuffers(tensors));
    assert forall i :: 0 <= i < |tensors| ==> slots[i] == BufferRef(tensors[i].buffer);
  }
}
