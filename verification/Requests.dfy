/**
 Patches from the caller's side: which ones are accepted, told from the exec's fields and the request,
 and what an accepted one puts there.
 */
module Requests {
  import opened Prelude
  import opened Model
  import opened Validation
  import opened Builder
  import opened Commands
  import opened Exec

  // ---- the field a request names ----

  /** The first node with the identifier, of the kinds that carry one for patches. */
  ghost predicate IsTarget(nodes: seq<ExecNode>, id: NodeId, k: int) {
    && 0 <= k < |nodes| && nodes[k].id == id
    && !nodes[k].work.TensorGraph? && !nodes[k].work.Workspace? && !nodes[k].work.WorkspaceFill?
    && forall j :: 0 <= j < k && nodes[j].id == id ==>
         nodes[j].work.TensorGraph? || nodes[j].work.Workspace? || nodes[j].work.WorkspaceFill?
  }

  ghost predicate IsFirstBinding(bindings: seq<Binding>, index: nat, k: int) {
    0 <= k < |bindings| && bindings[k].index == index && forall j :: 0 <= j < k ==> bindings[j].index != index
  }

  ghost predicate IsFirstScalar(scalars: seq<Scalar>, index: nat, k: int) {
    0 <= k < |scalars| && scalars[k].index == index && forall j :: 0 <= j < k ==> scalars[j].index != index
  }

  ghost predicate IsFirstContract(resources: seq<Resource>, index: nat, k: int) {
    0 <= k < |resources| && resources[k].index == index && forall j :: 0 <= j < k ==> resources[j].index != index
  }

  // ---- what is accepted ----

  /** The bytes a contract declares, counted from a binding offset: aligned, and inside the buffer. */
  predicate RangeHolds(r: Resource, buffer: Buffer, offset: Size) {
    && r.byteCount > 0
    && offset + r.byteOffset + r.byteCount <= buffer.length
    && (r.alignment == 0 || (offset + r.byteOffset) % r.alignment == 0)
  }

  ghost predicate AcceptsGrid(d: DispatchWork, flags: set<PatchFlag>, grid: Dims) {
    && DispatchGrid in flags
    && 0 < grid.x <= d.maxGrid.x && 0 < grid.y <= d.maxGrid.y && 0 < grid.z <= d.maxGrid.z
  }

  ghost predicate AcceptsBuffer(
    d: DispatchWork, flags: set<PatchFlag>, device: Option<nat>, index: nat, buffer: Buffer, offset: Size)
  {
    && DispatchBuffer in flags && offset <= buffer.length
    && (device.Some? ==> device.value == buffer.device)
    && (exists k :: IsFirstBinding(d.buffers, index, k))
    && (exists k :: IsFirstContract(d.resources, index, k) && RangeHolds(d.resources[k], buffer, offset))
  }

  ghost predicate AcceptsScalar(d: DispatchWork, flags: set<PatchFlag>, index: nat, data: seq<nat>) {
    && DispatchScalar in flags && data != []
    && exists k :: IsFirstScalar(d.scalars, index, k) && |d.scalars[k].data| == |data|
  }

  ghost predicate AcceptsCopy(b: CopyWork, flags: set<PatchFlag>, c: CopyWork) {
    && c.byteCount > 0
    && c.srcOffset + c.byteCount <= c.src.length && c.dstOffset + c.byteCount <= c.dst.length
    && (CopyBuffer in flags || (c.src == b.src && c.dst == b.dst))
    && (CopyRange in flags || (c.srcOffset == b.srcOffset && c.dstOffset == b.dstOffset && c.byteCount == b.byteCount))
  }

  ghost predicate AcceptsFill(b: FillWork, flags: set<PatchFlag>, f: FillWork) {
    && f.byteCount > 0 && f.dstOffset + f.byteCount <= f.dst.length
    && (FillBuffer in flags || f.dst == b.dst)
    && (FillRange in flags || (f.dstOffset == b.dstOffset && f.byteCount == b.byteCount))
    && (FillValue in flags || f.value == b.value)
  }

  ghost predicate NodeAccepts(n: ExecNode, device: Option<nat>, p: Patch) {
    match p
    case PatchGrid(grid) => n.work.Dispatch? && AcceptsGrid(n.work.dispatch, n.flags, grid)
    case PatchBuffer(index, buffer, offset) =>
      n.work.Dispatch? && AcceptsBuffer(n.work.dispatch, n.flags, device, index, buffer, offset)
    case PatchScalar(index, data) => n.work.Dispatch? && AcceptsScalar(n.work.dispatch, n.flags, index, data)
    case PatchCopy(c) => n.work.Copy? && AcceptsCopy(n.work.copy, n.flags, c)
    case PatchFill(f) => n.work.Fill? && AcceptsFill(n.work.fill, n.flags, f)
    case PatchEvent(_) => (n.work.EventWait? || n.work.EventSignal?) && EventValue in n.flags
  }

  /** No launch is in flight, the identifier names a node, and the node accepts the request. */
  ghost predicate Accepts(s: ExecState, id: NodeId, p: Patch) {
    s.inFlight == 0 && id != SIZE_MAX && exists k :: IsTarget(s.nodes, id, k) && NodeAccepts(s.nodes[k], s.device, p)
  }

  // ---- what is then there ----

  ghost predicate BindingReplaced(a: seq<Binding>, b: seq<Binding>, wanted: Binding) {
    |b| == |a| && exists k :: IsFirstBinding(a, wanted.index, k) && b[k] == wanted
                              && forall j :: 0 <= j < |a| && j != k ==> b[j] == a[j]
  }

  ghost predicate ScalarReplaced(a: seq<Scalar>, b: seq<Scalar>, wanted: Scalar) {
    |b| == |a| && exists k :: IsFirstScalar(a, wanted.index, k) && b[k] == wanted
                              && forall j :: 0 <= j < |a| && j != k ==> b[j] == a[j]
  }

  /** The requested value is in the field, and every other field is as it was. */
  ghost predicate NodeGranted(n: ExecNode, m: ExecNode, p: Patch) {
    && m == n.(work := m.work)
    && match p
       case PatchGrid(grid) =>
         && n.work.Dispatch? && m.work.Dispatch? && m.work.dispatch.grid == grid
         && m.work.dispatch == n.work.dispatch.(grid := m.work.dispatch.grid)
       case PatchBuffer(index, buffer, offset) =>
         && n.work.Dispatch? && m.work.Dispatch?
         && BindingReplaced(n.work.dispatch.buffers, m.work.dispatch.buffers, Binding(index, buffer, offset))
         && m.work.dispatch == n.work.dispatch.(buffers := m.work.dispatch.buffers)
       case PatchScalar(index, data) =>
         && n.work.Dispatch? && m.work.Dispatch?
         && ScalarReplaced(n.work.dispatch.scalars, m.work.dispatch.scalars, Scalar(index, data))
         && m.work.dispatch == n.work.dispatch.(scalars := m.work.dispatch.scalars)
       case PatchCopy(c) => n.work.Copy? && m.work.Copy? && m.work.copy == c
       case PatchFill(f) => n.work.Fill? && m.work.Fill? && m.work.fill == f
       case PatchEvent(value) =>
         && (n.work.EventWait? || n.work.EventSignal?)
         && (m.work.EventWait? <==> n.work.EventWait?) && (m.work.EventSignal? <==> n.work.EventSignal?)
         && m.work.event == n.work.event && m.work.value == value
  }

  /** The node with the identifier is as requested; all other nodes and the rest of the exec are as they were. */
  ghost predicate Granted(s: ExecState, t: ExecState, id: NodeId, p: Patch) {
    && t == s.(nodes := t.nodes) && |t.nodes| == |s.nodes|
    && exists k :: IsTarget(s.nodes, id, k) && NodeGranted(s.nodes[k], t.nodes[k], p)
                   && forall j :: 0 <= j < |s.nodes| && j != k ==> t.nodes[j] == s.nodes[j]
  }

  // ---- the operations meet that ----

  lemma BindingFound(bindings: seq<Binding>, index: nat)
    ensures BindingFor(bindings, index).Some? <==> exists k :: IsFirstBinding(bindings, index, k)
    ensures BindingFor(bindings, index).Some? ==> IsFirstBinding(bindings, index, BindingFor(bindings, index).value)
  {
    var r := BindingFor(bindings, index);
    assert r.Some? ==> IsFirstBinding(bindings, index, r.value);
  }

  lemma ScalarFound(scalars: seq<Scalar>, index: nat)
    ensures ScalarFor(scalars, index).Some? <==> exists k :: IsFirstScalar(scalars, index, k)
    ensures ScalarFor(scalars, index).Some? ==> IsFirstScalar(scalars, index, ScalarFor(scalars, index).value)
  {
    var r := ScalarFor(scalars, index);
    assert r.Some? ==> IsFirstScalar(scalars, index, r.value);
  }

  /** The search stops at the first contract with the index. */
  lemma {:induction false} ContractFound(resources: seq<Resource>, index: nat)
    ensures ResourceFor(resources, index).None? <==> forall k :: !IsFirstContract(resources, index, k)
    ensures forall k :: IsFirstContract(resources, index, k) ==> ResourceFor(resources, index) == Some(resources[k])
  {
    if |resources| > 0 && resources[0].index == index {
      assert IsFirstContract(resources, index, 0);
    } else if |resources| > 0 {
      ContractFound(resources[1..], index);
      forall k | IsFirstContract(resources, index, k)
        ensures IsFirstContract(resources[1..], index, k - 1)
      {
        assert forall j :: 0 <= j < k - 1 ==> resources[1..][j] == resources[j + 1];
      }
      forall k | IsFirstContract(resources[1..], index, k)
        ensures IsFirstContract(resources, index, k + 1)
      {
        assert forall j :: 1 <= j < k + 1 ==> resources[j] == resources[1..][j - 1];
      }
    }
  }

  /** The checks of a contract against a buffer, over machine integers, are the true ones. */
  lemma RangeHoldsIff(r: Resource, buffer: Buffer, offset: Size)
    requires r.byteCount > 0
    ensures ResourceOffsetAligned(r, offset) && ResourceRangeValid(r, buffer.length, offset)
       <==> RangeHolds(r, buffer, offset)
  {
  }

  lemma BufferPatchGranted(
      d: DispatchWork, flags: set<PatchFlag>, device: Option<nat>, index: nat, buffer: Buffer, offset: Size)
    ensures var r := BufferPatched(d, flags, device, index, buffer, offset);
      && (r.Patched? <==> AcceptsBuffer(d, flags, device, index, buffer, offset))
      && (r.Patched? ==>
            && r.work.Dispatch?
            && BindingReplaced(d.buffers, r.work.dispatch.buffers, Binding(index, buffer, offset))
            && r.work.dispatch == d.(buffers := r.work.dispatch.buffers))
  {
    hide ResourceOffsetAligned, ResourceRangeValid, RangeHolds;
    BindingFound(d.buffers, index);
    ContractFound(d.resources, index);
    if HasRange(d.resources, index) {
      RangeHoldsIff(ResourceFor(d.resources, index).value, buffer, offset);
    } else {
      NothingDeclared(d, index, buffer, offset);
    }
  }

  lemma NothingDeclared(d: DispatchWork, index: nat, buffer: Buffer, offset: Size)
    requires !HasRange(d.resources, index)
    ensures forall k :: IsFirstContract(d.resources, index, k) ==> !RangeHolds(d.resources[k], buffer, offset)
  {
    ContractFound(d.resources, index);
  }

  lemma ScalarPatchGranted(d: DispatchWork, flags: set<PatchFlag>, index: nat, data: seq<nat>)
    ensures var r := ScalarPatched(d, flags, index, data);
      && (r.Patched? <==> AcceptsScalar(d, flags, index, data))
      && (r.Patched? ==>
            && r.work.Dispatch?
            && ScalarReplaced(d.scalars, r.work.dispatch.scalars, Scalar(index, data))
            && r.work.dispatch == d.(scalars := r.work.dispatch.scalars))
  {
    ScalarFound(d.scalars, index);
  }

  /** One node: exactly the acceptable requests are accepted, and they are granted as asked. */
  lemma NodePatchGranted(n: ExecNode, device: Option<nat>, p: Patch)
    ensures PatchedWork(n, device, p).Patched? <==> NodeAccepts(n, device, p)
    ensures PatchedWork(n, device, p).Patched? ==> NodeGranted(n, n.(work := PatchedWork(n, device, p).work), p)
  {
    hide BufferPatched, ScalarPatched, AcceptsBuffer, AcceptsScalar, BindingReplaced, ScalarReplaced;
    if n.work.Dispatch? {
      match p {
        case PatchBuffer(index, buffer, offset) =>
          BufferPatchGranted(n.work.dispatch, n.flags, device, index, buffer, offset);
        case PatchScalar(index, data) => ScalarPatchGranted(n.work.dispatch, n.flags, index, data);
        case _ =>
      }
    }
  }

  /**
   A patch is accepted exactly when its node accepts the request and no launch is in flight; then the
   exec holds what was requested, where it was requested, and is otherwise unchanged.
   */
  lemma PatchGranted(s: ExecState, id: NodeId, p: Patch)
    ensures PlanPatch(s, id, p).Change? <==> Accepts(s, id, p)
    ensures Accepts(s, id, p) ==> Granted(s, AfterPatch(s, id, p), id, p)
    ensures !Accepts(s, id, p) ==> AfterPatch(s, id, p) == s
  {
    hide PatchedWork, NodeAccepts, NodeGranted;
    var k := FindNode(s.nodes, id);
    if k.Some? {
      assert IsTarget(s.nodes, id, k.value);
      NodePatchGranted(s.nodes[k.value], s.device, p);
    }
  }
}
