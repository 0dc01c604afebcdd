/**
 Memory safety of what is encoded: creation-time, add-time and patch-time checks together keep every
 range inside its Metal buffer, with no wrap in the address sum.
 */
module Bounds {
  import opened Prelude
  import opened Bits
  import opened Model
  import opened Heaps
  import opened Validation
  import opened Builder
  import opened Planner
  import opened Commands
  import opened Exec

  /** The window of a wrapper lies in its Metal buffer. */
  predicate BufferOk(b: Buffer) {
    b.length > 0 && b.byteOffset + b.length <= b.metal.length
  }

  /** What creation checked about an object. */
  predicate RefOk(r: Ref) {
    match r
    case BufferRef(b) => BufferOk(b)
    case EventRef(_) => true
    case ArenaRef(a) => ArenaOk(a)
  }

  predicate WorkBuffersOk(w: Work) {
    forall b :: b in WorkBuffers(w) ==> BufferOk(b)
  }

  // ---- creating buffers ----

  /** A shared buffer is a wrapper over the whole of a Metal buffer of its own. */
  method CreateSharedBuffer(
      heap: Heap, device: nat, address: nat, handle: nat, length: Size, metalCreates: bool, allocates: bool)
    returns (status: Status, b: Buffer)
    requires heap.Valid() && BufferRef(Buffer(address, device, Metal(handle, length), length, 0)) !in heap.counts
    modifies heap
    ensures heap.Valid() && b == Buffer(address, device, Metal(handle, length), length, 0)
    ensures status == if length == 0 then InvalidArgument else if !metalCreates then BackendError
                      else if allocates then Ok else OutOfMemory
    ensures heap.refs == old(heap.refs) + (if status == Ok then multiset{BufferRef(b)} else multiset{})
    ensures status == Ok ==> BufferOk(b)
  {
    b := Buffer(address, device, Metal(handle, length), length, 0);
    if length == 0 {
      return InvalidArgument, b;
    }
    if !metalCreates {
      return BackendError, b;
    }
    if !allocates {
      return OutOfMemory, b;
    }
    heap.Allocate(BufferRef(b));
    return Ok, b;
  }

  /** An event is born with the caller's reference. */
  method CreateEvent(heap: Heap, address: nat, available: bool, metalCreates: bool, allocates: bool)
    returns (status: Status, e: Event)
    requires heap.Valid() && EventRef(Event(address)) !in heap.counts
    modifies heap
    ensures heap.Valid() && e == Event(address)
    ensures status == if !available then Unsupported else if !metalCreates then BackendError
                      else if allocates then Ok else OutOfMemory
    ensures heap.refs == old(heap.refs) + (if status == Ok then multiset{EventRef(e)} else multiset{})
  {
    e := Event(address);
    if !available {
      return Unsupported, e;
    }
    if !metalCreates {
      return BackendError, e;
    }
    if !allocates {
      return OutOfMemory, e;
    }
    heap.Allocate(EventRef(e));
    return Ok, e;
  }

  datatype WrapAccess = WrapRead | WrapWrite | WrapReadWrite | WrapOther(code: int)

  datatype WrapFlag = RetainBuffer | RetainOwner | HostVisible | Mutable | OtherWrapFlag(bit: nat)

  datatype WrapDesc = WrapDesc(
    metal: Metal, metalDevice: nat, hostReadable: bool, byteOffset: Size, byteLength: Size,
    access: WrapAccess, flags: set<WrapFlag>, ownerContext: bool, ownerRetain: bool, ownerRelease: bool)

  /** The rules a wrap request has to meet. */
  predicate WrapOk(device: nat, d: WrapDesc) {
    && 0 < d.byteLength && d.byteOffset + d.byteLength <= d.metal.length
    && !d.access.WrapOther?
    && d.flags <= {RetainBuffer, RetainOwner, HostVisible, Mutable}
    && (RetainBuffer in d.flags || RetainOwner in d.flags)
    && (if RetainOwner in d.flags then d.ownerContext && d.ownerRetain && d.ownerRelease
        else !d.ownerContext && !d.ownerRetain && !d.ownerRelease)
    && ((d.access.WrapWrite? || d.access.WrapReadWrite?) ==> Mutable in d.flags)
    && d.metalDevice == device
  }

  /** Wraps a window of an existing Metal buffer; `allocates` covers both memory requests. */
  method WrapBuffer(heap: Heap, device: nat, d: WrapDesc, address: nat, allocates: bool)
    returns (status: Status, b: Buffer)
    requires heap.Valid()
    requires BufferRef(Buffer(address, device, d.metal, d.byteLength, d.byteOffset)) !in heap.counts
    modifies heap
    ensures heap.Valid()
    ensures status == if !WrapOk(device, d) then InvalidArgument
                      else if HostVisible in d.flags && !d.hostReadable then Unsupported
                      else if allocates then Ok else OutOfMemory
    ensures heap.refs == old(heap.refs) + (if status == Ok then multiset{BufferRef(b)} else multiset{})
    ensures b == Buffer(address, device, d.metal, d.byteLength, d.byteOffset)
    ensures status == Ok ==> BufferOk(b)
  {
    b := Buffer(address, device, d.metal, d.byteLength, d.byteOffset);
    if d.byteLength == 0 || d.byteOffset > SIZE_MAX - d.byteLength {
      return InvalidArgument, b;
    }
    if d.access.WrapOther? {
      return InvalidArgument, b;
    }
    if !(d.flags <= {RetainBuffer, RetainOwner, HostVisible, Mutable}) {
      return InvalidArgument, b;
    }
    if RetainBuffer !in d.flags && RetainOwner !in d.flags {
      return InvalidArgument, b;
    }
    var retainsOwner := RetainOwner in d.flags;
    if retainsOwner && (!d.ownerContext || !d.ownerRetain || !d.ownerRelease) {
      return InvalidArgument, b;
    }
    if !retainsOwner && (d.ownerContext || d.ownerRetain || d.ownerRelease) {
      return InvalidArgument, b;
    }
    if (d.access.WrapWrite? || d.access.WrapReadWrite?) && Mutable !in d.flags {
      return InvalidArgument, b;
    }
    if d.metalDevice != device {
      return InvalidArgument, b;
    }
    if WrapAdd(d.byteOffset, d.byteLength) > d.metal.length {
      return InvalidArgument, b;
    }
    if HostVisible in d.flags && !d.hostReadable {
      return Unsupported, b;
    }
    if !allocates {
      return OutOfMemory, b;
    }
    heap.Allocate(BufferRef(b));
    return Ok, b;
  }

  // ---- what launches encode ----

  /** The absolute offset is the true sum: machine addition does not wrap. */
  lemma OffsetsDoNotWrap(b: Buffer, offset: Size)
    requires BufferOk(b) && offset <= b.length
    ensures MetalOffset(b, offset) == b.byteOffset + offset
  {
  }

  predicate TensorInBounds(t: Tensor) {
    t.byteOffset == 0 && t.buffer.byteOffset == 0
    && Product(t.shape) * ElementSize(t.dataType) <= t.buffer.metal.length
  }

  /** Every byte a command touches lies in the buffer it names; `workspace` is the planned total. */
  predicate CommandInBounds(c: Command, workspace: nat) {
    match c.op
    case RunKernel(_, bindings, _, _, _) =>
      forall i :: 0 <= i < |bindings| ==> bindings[i].offset <= bindings[i].metal.length
    case CopyBytes(src, srcOffset, dst, dstOffset, byteCount) =>
      srcOffset + byteCount <= src.length && dstOffset + byteCount <= dst.length
    case FillBytes(metal, offset, byteCount, _) => offset + byteCount <= metal.length
    case FillWorkspace(offset, size, _) => offset + size <= workspace
    case CopyFromWorkspace(offset, to, toOffset, size) =>
      offset + size <= workspace && toOffset + size <= to.length
    case RunTensorGraph(_, feeds, targets) =>
      && (forall i :: 0 <= i < |feeds| ==> TensorInBounds(feeds[i]))
      && (forall i :: 0 <= i < |targets| ==> TensorInBounds(targets[i]))
    case _ => true
  }

  lemma DispatchInBounds(n: ExecNode, workspace: nat)
    requires n.work.Dispatch? && DispatchOk(n.work.dispatch) && WorkBuffersOk(n.work)
    ensures CommandInBounds(Encode(n)[0], workspace)
  {
    var bindings := n.work.dispatch.buffers;
    assert BindingsOk(bindings);
    forall i | 0 <= i < |bindings|
      ensures Bound(bindings[i]).offset <= Bound(bindings[i]).metal.length
    {
      assert bindings[i].buffer == WorkBuffers(n.work)[i];
      OffsetsDoNotWrap(bindings[i].buffer, bindings[i].offset);
    }
  }

  lemma TensorsInBounds(tensors: seq<Tensor>)
    requires forall i :: 0 <= i < |tensors| ==> TensorOk(tensors[i])
    requires forall b :: b in TensorBuffers(tensors) ==> BufferOk(b)
    ensures forall i :: 0 <= i < |tensors| ==> TensorInBounds(tensors[i])
  {
    forall i | 0 <= i < |tensors|
      ensures TensorInBounds(tensors[i])
    {
      assert TensorBuffers(tensors)[i] == tensors[i].buffer;
      assert TensorOk(tensors[i]) && BufferOk(tensors[i].buffer);
    }
  }

  lemma TensorGraphInBounds(n: ExecNode, workspace: nat)
    requires n.work.TensorGraph? && WorkOk(n.work) && WorkBuffersOk(n.work)
    ensures CommandInBounds(Encode(n)[0], workspace)
  {
    assert WorkBuffers(n.work) == TensorBuffers(n.work.feeds) + TensorBuffers(n.work.targets);
    TensorsInBounds(n.work.feeds);
    TensorsInBounds(n.work.targets);
  }

  lemma CopiesAndFillsInBounds(n: ExecNode, plan: Plan)
    requires WorkOk(n.work) && SliceOk(plan, n) && PlanOk(plan) && WorkBuffersOk(n.work)
    requires n.work.Copy? || n.work.Fill? || n.work.WorkspaceFill?
    ensures forall c :: c in Encode(n) ==> CommandInBounds(c, plan.totalSize)
  {
    match n.work
    case Copy(c) =>
      assert WorkBuffers(n.work) == [c.src, c.dst];
      OffsetsDoNotWrap(c.src, c.srcOffset);
      OffsetsDoNotWrap(c.dst, c.dstOffset);
    case Fill(f) =>
      assert WorkBuffers(n.work) == [f.dst];
      OffsetsDoNotWrap(f.dst, f.dstOffset);
    case WorkspaceFill(size, alignment, _, dst, dstOffset) =>
      assert WorkBuffers(n.work) == [dst];
      OffsetsDoNotWrap(dst, dstOffset);
  }

  /** All commands of a well-formed node over sound buffers stay in bounds. */
  lemma EncodedInBounds(n: ExecNode, plan: Plan)
    requires NodeOk(n) && SliceOk(plan, n) && PlanOk(plan) && WorkBuffersOk(n.work)
    ensures forall c :: c in Encode(n) ==> CommandInBounds(c, plan.totalSize)
  {
    hide CommandInBounds, SliceOk, PlanOk, WorkBuffersOk, FlagsOk, ImplOk;
    if n.work.Dispatch? {
      DispatchInBounds(n, plan.totalSize);
    } else if n.work.TensorGraph? {
      TensorGraphInBounds(n, plan.totalSize);
    } else if n.work.Copy? || n.work.Fill? || n.work.WorkspaceFill? {
      CopiesAndFillsInBounds(n, plan);
    } else {
      TrivialCommandsInBounds(n, plan.totalSize);
    }
  }

  lemma TrivialCommandsInBounds(n: ExecNode, workspace: nat)
    requires n.work.EventWait? || n.work.EventSignal? || n.work.Barrier? || n.work.Workspace?
    ensures forall c :: c in Encode(n) ==> CommandInBounds(c, workspace)
  {
  }

  /** A declared byte range of a dispatch node lies in the Metal buffer its binding names. */
  lemma DeclaredRangesInBounds(n: ExecNode, k: nat)
    requires NodeOk(n) && n.work.Dispatch? && k < |n.work.dispatch.resources| && WorkBuffersOk(n.work)
    requires n.work.dispatch.resources[k].byteCount > 0
    ensures var d := n.work.dispatch;
      var i := BindingFor(d.buffers, d.resources[k].index);
      && i.Some?
      && BoundBuffers(d.buffers)[i.value].index == d.resources[k].index
      && BoundBuffers(d.buffers)[i.value].offset + d.resources[k].byteOffset + d.resources[k].byteCount
           <= BoundBuffers(d.buffers)[i.value].metal.length
  {
    var d := n.work.dispatch;
    assert ResourceOk(d.resources[k], d.buffers);
    var i := BindingFor(d.buffers, d.resources[k].index).value;
    assert WorkBuffers(n.work)[i] == d.buffers[i].buffer;
    assert BindingsOk(d.buffers);
    OffsetsDoNotWrap(d.buffers[i].buffer, d.buffers[i].offset);
  }

  /**
   Contracts are checked on offsets inside the wrapper. On the Metal buffer, an accepted contract is
   aligned if and only if the wrapper's own base offset is.
   */
  lemma AbsoluteAlignmentIff(n: ExecNode, k: nat)
    requires NodeOk(n) && n.work.Dispatch? && k < |n.work.dispatch.resources| && WorkBuffersOk(n.work)
    ensures var d, r := n.work.dispatch, n.work.dispatch.resources[k];
      var i := BindingFor(d.buffers, r.index);
      && i.Some?
      && ((BoundBuffers(d.buffers)[i.value].offset + r.byteOffset) % EffectiveAlignment(r) == 0
          <==> d.buffers[i.value].buffer.byteOffset % EffectiveAlignment(r) == 0)
  {
    hide AlignmentValid, AccessValid, ResourceRangeValid;
    var d, r := n.work.dispatch, n.work.dispatch.resources[k];
    assert ResourceOk(r, d.buffers);
    var b := d.buffers[BindingFor(d.buffers, r.index).value];
    assert WorkBuffers(n.work)[BindingFor(d.buffers, r.index).value] == b.buffer;
    assert BindingsOk(d.buffers);
    OffsetsDoNotWrap(b.buffer, b.offset);
    SumAlignedIff(b.buffer.byteOffset, b.offset + r.byteOffset, EffectiveAlignment(r));
  }

  /** The two kinds that are given a slice. */
  predicate IsWorkspace(w: Work) {
    w.Workspace? || w.WorkspaceFill?
  }

  /** The workspace slices of two different nodes never overlap. */
  lemma SlicesOfNodesDisjoint(s: ExecState, i: nat, j: nat)
    requires ExecOk(s) && i < |s.nodes| && j < |s.nodes| && i != j
    requires IsWorkspace(s.nodes[i].work) && IsWorkspace(s.nodes[j].work)
    ensures s.nodes[i].offset + s.nodes[i].work.size <= s.nodes[j].offset
         || s.nodes[j].offset + s.nodes[j].work.size <= s.nodes[i].offset
    ensures s.hasWorkspace && s.nodes[i].offset + s.nodes[i].work.size <= s.plan.totalSize
  {
    hide IcbOk;
    var n, m := s.nodes[i], s.nodes[j];
    assert NodeOk(n) && SliceOk(s.plan, n) && SliceOk(s.plan, m);
    var a :| 0 <= a < |s.plan.records|
          && s.plan.records[a] == Record(n.id, n.work.size, n.work.alignment, n.offset);
    var b :| 0 <= b < |s.plan.records|
          && s.plan.records[b] == Record(m.id, m.work.size, m.work.alignment, m.offset);
    assert n.id != m.id;
    assert a != b;
  }
}
