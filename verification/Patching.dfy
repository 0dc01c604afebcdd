/** The executable graph as an object, with its patch operations and its destruction (patch.c). */
module Patching {
  import opened Prelude
  import opened Model
  import opened Heaps
  import opened Validation
  import opened Planner
  import opened Commands
  import opened Exec
  import opened Requests

  function RejectionOf(plan: PatchPlan): Option<PatchError> {
    if plan.Reject? then Some(plan.error) else None
  }

  /** The counts once the patched node's references have been exchanged. */
  function RefsAfterPatch(s: ExecState, id: NodeId, p: Patch, refs: multiset<Ref>): multiset<Ref> {
    match PlanPatch(s, id, p)
    case Change(k, w) => refs + WorkRefs(w) - WorkRefs(s.nodes[k].work)
    case Reject(_) => refs
  }

  /**
   What every patch owes: it is accepted exactly when the request is one to accept, and then grants it;
   the planned change or none at all, in the node and in the counts.
   */
  ghost predicate PatchOutcome(
    id: NodeId, p: Patch, rejection: Option<PatchError>,
    s: ExecState, s': ExecState, refs: multiset<Ref>, refs': multiset<Ref>)
  {
    && (rejection.None? <==> Accepts(s, id, p))
    && (rejection.None? ==> Granted(s, s', id, p))
    && (rejection.Some? ==> s' == s)
    && rejection == RejectionOf(PlanPatch(s, id, p))
    && s' == AfterPatch(s, id, p)
    && refs' == RefsAfterPatch(s, id, p, refs)
  }

  class GraphExec {
    var nodes: seq<ExecNode>
    var device: Option<nat>
    var plan: Plan
    var hasWorkspace: bool
    var icb: Icb
    var inFlight: nat

    function State(): ExecState
      reads this
    {
      ExecState(nodes, device, plan, hasWorkspace, icb, inFlight)
    }

    /** A zeroed exec that already owns a plan. */
    constructor (plan: Plan)
      ensures State() == ExecState([], None, plan, false, Icb({}, false, 0, 0, 0, NoFallback, None), 0)
    {
      nodes, device, hasWorkspace, inFlight := [], None, false, 0;
      this.plan := plan;
      icb := Icb({}, false, 0, 0, 0, NoFallback, None);
    }

    /** Gates a patch on idleness and finds its node. */
    method Locate(id: NodeId) returns (rejection: Option<PatchError>, k: nat)
      ensures rejection == if inFlight > 0 then Some(LaunchInFlight)
                           else if id == INVALID_NODE_ID || FindNode(nodes, id).None? then Some(NoSuchNode)
                           else None
      ensures rejection.None? ==> FindNode(nodes, id) == Some(k)
    {
      k := 0;
      if inFlight > 0 {
        return Some(LaunchInFlight), k;
      }
      if id == INVALID_NODE_ID {
        return Some(NoSuchNode), k;
      }
      for i := 0 to |nodes|
        invariant forall j :: 0 <= j < i ==> !(nodes[j].id == id && Searchable(nodes[j].work))
      {
        if Searchable(nodes[i].work) && nodes[i].id == id {
          return None, i;
        }
      }
      return Some(NoSuchNode), k;
    }

    method SetWork(k: nat, w: Work)
      requires k < |nodes|
      modifies this`nodes
      ensures State() == WithWork(old(State()), k, w)
    {
      nodes := nodes[k := nodes[k].(work := w)];
    }

    method PatchDispatchGrid(ghost heap: Heap, id: NodeId, grid: Dims) returns (rejection: Option<PatchError>)
      modifies this`nodes
      ensures PatchOutcome(id, PatchGrid(grid), rejection, old(State()), State(), heap.refs, heap.refs)
    {
      hide Accepts, Granted;
      PatchGranted(State(), id, PatchGrid(grid));
      var k;
      rejection, k := Locate(id);
      if rejection.Some? {
        return;
      }
      var node := nodes[k];
      if !node.work.Dispatch? {
        return Some(WrongKind);
      }
      if DispatchGrid !in node.flags {
        return Some(NotPatchable);
      }
      if !DimsValid(grid) {
        return Some(BadArgument);
      }
      if !DimsWithin(grid, node.work.dispatch.maxGrid) {
        return Some(GridTooLarge);
      }
      SameBuffersSameRefs(node.work, Dispatch(node.work.dispatch.(grid := grid)));
      SetWork(k, Dispatch(node.work.dispatch.(grid := grid)));
    }

    /** The checks of a buffer patch: the node and the binding it would change. */
    method CheckRebind(id: NodeId, index: nat, buffer: Buffer, offset: Size)
      returns (rejection: Option<PatchError>, k: nat, b: nat)
      ensures rejection == RejectionOf(PlanPatch(State(), id, PatchBuffer(index, buffer, offset)))
      ensures rejection.None? ==>
                && k < |nodes| && nodes[k].work.Dispatch? && b < |nodes[k].work.dispatch.buffers|
                && PlanPatch(State(), id, PatchBuffer(index, buffer, offset))
                     == Change(k, Rebound(nodes[k].work.dispatch, b, Binding(index, buffer, offset)))
    {
      hide ResourceOffsetAligned, ResourceRangeValid, AccessKnown;
      b := 0;
      rejection, k := Locate(id);
      if rejection.Some? {
        return;
      }
      var node := nodes[k];
      if !node.work.Dispatch? {
        return Some(WrongKind), k, b;
      }
      var d := node.work.dispatch;
      if DispatchBuffer !in node.flags {
        return Some(NotPatchable), k, b;
      }
      if offset > buffer.length {
        return Some(BadArgument), k, b;
      }
      if device.Some? && device.value != buffer.device {
        return Some(OtherDevice), k, b;
      }
      var binding := FindBinding(d.buffers, index);
      if binding.None? {
        return Some(NoSuchBinding), k, b;
      }
      var resource := FindResource(d.resources, index);
      if resource.None? || resource.value.byteCount == 0 {
        return Some(NoDeclaredRange), k, b;
      }
      if !ResourceOffsetAligned(resource.value, offset) || !ResourceRangeValid(resource.value, buffer.length, offset) {
        return Some(BadRange), k, b;
      }
      return None, k, binding.value;
    }

    method PatchDispatchBuffer(heap: Heap, id: NodeId, index: nat, buffer: Buffer, offset: Size)
      returns (rejection: Option<PatchError>)
      requires heap.Valid() && BufferRef(buffer) in heap.refs && ExecRefs(State()) <= heap.refs
      modifies this`nodes, heap
      ensures heap.Valid()
      ensures PatchOutcome(id, PatchBuffer(index, buffer, offset), rejection,
                           old(State()), State(), old(heap.refs), heap.refs)
    {
      hide PlanPatch, WorkRefs, ExecRefs, Rebound, Accepts, Granted, Heap.Valid;
      PatchGranted(State(), id, PatchBuffer(index, buffer, offset));
      var k, b;
      rejection, k, b := CheckRebind(id, index, buffer, offset);
      if rejection.Some? {
        return;
      }
      var d := nodes[k].work.dispatch;
      var w := Rebound(d, b, Binding(index, buffer, offset));
      PatchExchangesRefs(State(), k, w);
      RebindCounts(heap.refs, d, b, Binding(index, buffer, offset));
      heap.Retain(BufferRef(buffer));
      var _ := heap.Release(BufferRef(d.buffers[b].buffer));
      SetWork(k, w);
    }

    method PatchDispatchScalar(ghost heap: Heap, id: NodeId, index: nat, data: seq<nat>)
      returns (rejection: Option<PatchError>)
      modifies this`nodes
      ensures PatchOutcome(id, PatchScalar(index, data), rejection, old(State()), State(), heap.refs, heap.refs)
    {
      hide Accepts, Granted;
      PatchGranted(State(), id, PatchScalar(index, data));
      var k;
      rejection, k := Locate(id);
      if rejection.Some? {
        return;
      }
      var node := nodes[k];
      if !node.work.Dispatch? {
        return Some(WrongKind);
      }
      var d := node.work.dispatch;
      if DispatchScalar !in node.flags {
        return Some(NotPatchable);
      }
      if |data| == 0 {
        return Some(BadArgument);
      }
      for i := 0 to |d.scalars|
        invariant forall j :: 0 <= j < i ==> d.scalars[j].index != index
        invariant nodes == old(nodes)
      {
        if d.scalars[i].index != index {
          continue;
        }
        assert ScalarFor(d.scalars, index) == Some(i);
        if |d.scalars[i].data| != |data| {
          return Some(WrongSize);
        }
        var w := Dispatch(d.(scalars := d.scalars[i := Scalar(index, data)]));
        SameBuffersSameRefs(node.work, w);
        SetWork(k, w);
        return None;
      }
      return Some(NoSuchBinding);
    }

    /** The checks of a copy patch and the node it would change. */
    method CheckCopy(id: NodeId, desc: CopyWork) returns (rejection: Option<PatchError>, k: nat)
      ensures rejection == RejectionOf(PlanPatch(State(), id, PatchCopy(desc)))
      ensures rejection.None? ==>
                k < |nodes| && PlanPatch(State(), id, PatchCopy(desc)) == Change(k, Copy(desc))
    {
      hide RangeValid;
      rejection, k := Locate(id);
      if rejection.Some? {
        return;
      }
      var node := nodes[k];
      if !node.work.Copy? {
        return Some(WrongKind), k;
      }
      var copy := node.work.copy;
      if !RangeValid(desc.src.length, desc.srcOffset, desc.byteCount)
         || !RangeValid(desc.dst.length, desc.dstOffset, desc.byteCount) {
        return Some(BadArgument), k;
      }
      var changesBuffer := desc.src != copy.src || desc.dst != copy.dst;
      var changesRange := desc.srcOffset != copy.srcOffset || desc.dstOffset != copy.dstOffset
                       || desc.byteCount != copy.byteCount;
      if changesBuffer && CopyBuffer !in node.flags {
        return Some(NotPatchable), k;
      }
      if changesRange && CopyRange !in node.flags {
        return Some(NotPatchable), k;
      }
      return None, k;
    }

    method PatchCopyNode(heap: Heap, id: NodeId, desc: CopyWork) returns (rejection: Option<PatchError>)
      requires heap.Valid() && BufferRef(desc.src) in heap.refs && BufferRef(desc.dst) in heap.refs
      requires ExecRefs(State()) <= heap.refs
      modifies this`nodes, heap
      ensures heap.Valid()
      ensures PatchOutcome(id, PatchCopy(desc), rejection, old(State()), State(), old(heap.refs), heap.refs)
    {
      hide PlanPatch, WorkRefs, WorkSlots, ExecRefs, Accepts, Granted;
      PatchGranted(State(), id, PatchCopy(desc));
      var k;
      rejection, k := CheckCopy(id, desc);
      if rejection.Some? {
        return;
      }
      SlotsByKind(Copy(desc));
      PatchExchangesRefs(State(), k, Copy(desc));
      ExchangeRefs(heap, nodes[k].work, Copy(desc));
      SetWork(k, Copy(desc));
    }

    method PatchFillNode(heap: Heap, id: NodeId, desc: FillWork) returns (rejection: Option<PatchError>)
      requires heap.Valid() && BufferRef(desc.dst) in heap.refs && ExecRefs(State()) <= heap.refs
      modifies this`nodes, heap
      ensures heap.Valid()
      ensures PatchOutcome(id, PatchFill(desc), rejection, old(State()), State(), old(heap.refs), heap.refs)
    {
      hide WorkRefs, WorkSlots, ExecRefs, RangeValid, Accepts, Granted;
      PatchGranted(State(), id, PatchFill(desc));
      var k;
      rejection, k := Locate(id);
      if rejection.Some? {
        return;
      }
      var node := nodes[k];
      if !node.work.Fill? {
        return Some(WrongKind);
      }
      var fill := node.work.fill;
      if !RangeValid(desc.dst.length, desc.dstOffset, desc.byteCount) {
        return Some(BadArgument);
      }
      if desc.dst != fill.dst && FillBuffer !in node.flags {
        return Some(NotPatchable);
      }
      if (desc.dstOffset != fill.dstOffset || desc.byteCount != fill.byteCount) && FillRange !in node.flags {
        return Some(NotPatchable);
      }
      if desc.value != fill.value && FillValue !in node.flags {
        return Some(NotPatchable);
      }
      SlotsByKind(Fill(desc));
      PatchExchangesRefs(State(), k, Fill(desc));
      ExchangeRefs(heap, node.work, Fill(desc));
      SetWork(k, Fill(desc));
    }

    method PatchEventValue(ghost heap: Heap, id: NodeId, value: nat) returns (rejection: Option<PatchError>)
      modifies this`nodes
      ensures PatchOutcome(id, PatchEvent(value), rejection, old(State()), State(), heap.refs, heap.refs)
    {
      hide Accepts, Granted, WorkRefs, WorkSlots;
      PatchGranted(State(), id, PatchEvent(value));
      var k;
      rejection, k := Locate(id);
      if rejection.Some? {
        return;
      }
      var node := nodes[k];
      if !node.work.EventWait? && !node.work.EventSignal? {
        return Some(WrongKind);
      }
      if EventValue !in node.flags {
        return Some(NotPatchable);
      }
      var w := if node.work.EventWait? then EventWait(node.work.event, value) else EventSignal(node.work.event, value);
      SameEventSameRefs(node.work, w);
      SetWork(k, w);
    }

    method SetOptimizationFlags(flags: set<OptFlag>) returns (status: Status)
      modifies this`icb
      ensures status == if old(inFlight) > 0 || !(flags <= {UseIcb}) then InvalidArgument else Ok
      ensures State() == AfterSetOptimization(old(State()), flags)
      ensures icb == if status == Ok then old(icb).(enabled := flags) else old(icb)
    {
      if inFlight > 0 {
        return InvalidArgument;
      }
      if !(flags <= {UseIcb}) {
        return InvalidArgument;
      }
      icb := icb.(enabled := flags);
      return Ok;
    }

    /** Frees the exec, complete or partly built: its nodes' references and its arena go back. */
    method Destroy(heap: Heap)
      requires heap.Valid() && ExecRefs(State()) <= heap.refs
      modifies this, heap
      ensures heap.Valid() && heap.refs == old(heap.refs) - ExecRefs(old(State()))
    {
      hide WorksRefs, ArenaRefs;
      heap.ReleaseWorks(ExecWorks(nodes));
      heap.ReleaseArena(plan.arena);
      nodes, plan, hasWorkspace, device := [], EMPTY_PLAN, false, None;
      icb := icb.(commands := None);
    }
  }

  lemma SameBuffersSameRefs(w: Work, v: Work)
    requires w.Dispatch? && v.Dispatch? && w.dispatch.buffers == v.dispatch.buffers
    ensures WorkRefs(w) == WorkRefs(v)
  {
  }

  lemma SameEventSameRefs(w: Work, v: Work)
    requires (w.EventWait? && v.EventWait?) || (w.EventSignal? && v.EventSignal?)
    requires w.event == v.event
    ensures WorkRefs(w) == WorkRefs(v)
  {
    hide WorkSlots;
    SlotsByKind(w);
    SlotsByKind(v);
  }

  function Rebound(d: DispatchWork, k: nat, b: Binding): Work
    requires k < |d.buffers|
  {
    Dispatch(d.(buffers := d.buffers[k := b]))
  }

  /** Rebinding one index exchanges exactly one reference. */
  lemma RebindRefs(d: DispatchWork, k: nat, b: Binding)
    requires k < |d.buffers|
    ensures BufferRef(d.buffers[k].buffer) in WorkRefs(Dispatch(d))
    ensures WorkRefs(Rebound(d, k, b))
         == WorkRefs(Dispatch(d)) - multiset{BufferRef(d.buffers[k].buffer)} + multiset{BufferRef(b.buffer)}
  {
    var slots := WorkSlots(Dispatch(d));
    assert slots[k] == BufferRef(d.buffers[k].buffer);
    assert WorkSlots(Rebound(d, k, b)) == slots[k := BufferRef(b.buffer)];
  }

  /** Taking the new reference, then giving back the old one, leaves the counts of the new node. */
  lemma RebindCounts(refs: multiset<Ref>, d: DispatchWork, k: nat, b: Binding)
    requires k < |d.buffers| && WorkRefs(Dispatch(d)) <= refs
    ensures BufferRef(d.buffers[k].buffer) in refs + multiset{BufferRef(b.buffer)}
    ensures refs + multiset{BufferRef(b.buffer)} - multiset{BufferRef(d.buffers[k].buffer)}
         == refs + WorkRefs(Rebound(d, k, b)) - WorkRefs(Dispatch(d))
  {
    hide WorkRefs, Rebound;
    RebindRefs(d, k, b);
  }

  /** New references are taken before the old ones go, so objects shared by both survive. */
  method ExchangeRefs(heap: Heap, before: Work, after: Work)
    requires heap.Valid() && WorkRefs(before) <= heap.refs
    requires forall r :: r in WorkSlots(after) ==> r in heap.refs
    modifies heap
    ensures heap.Valid() && heap.refs == old(heap.refs) + WorkRefs(after) - WorkRefs(before)
  {
    heap.RetainAll(WorkSlots(after));
    heap.ReleaseAll(WorkSlots(before));
  }
}
