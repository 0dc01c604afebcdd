/**
 The workspace planner (arena.c): a bump allocator over `size_t` that gives every workspace node a
 slice, in schedule order, and then checks the whole against the graph's arena.
 */
module Planner {
  import opened Prelude
  import opened Bits
  import opened Model
  import opened Heaps

  /** What one workspace node asks for. */
  datatype Requirement = Requirement(node: NodeId, size: Size, alignment: Size)

  /** What it was given. */
  datatype Record = Record(node: NodeId, size: Size, alignment: Size, offset: nat)

  datatype Plan = Plan(records: seq<Record>, totalSize: nat, alignment: nat, arena: Option<Arena>)

  const EMPTY_PLAN := Plan([], 0, 0, None)

  /** A plan can hold this many records before the byte size of the table would overflow. */
  const MAX_RECORDS: nat := SIZE_MAX / 32

  // ---- the layout over unbounded integers ----

  predicate RequirementOk(r: Requirement) {
    r.size > 0 && AlignmentValid(r.alignment)
  }

  predicate RequirementsOk(reqs: seq<Requirement>) {
    forall k :: 0 <= k < |reqs| ==> RequirementOk(reqs[k])
  }

  /** Where the last slice ends. */
  function End(reqs: seq<Requirement>): nat {
    if |reqs| == 0 then 0
    else
      var last := reqs[|reqs| - 1];
      RoundUp(End(reqs[..|reqs| - 1]), last.alignment) + last.size
  }

  function Layout(reqs: seq<Requirement>): (records: seq<Record>)
    ensures |records| == |reqs|
  {
    if |reqs| == 0 then []
    else
      var rest, last := reqs[..|reqs| - 1], reqs[|reqs| - 1];
      Layout(rest) + [Record(last.node, last.size, last.alignment, RoundUp(End(rest), last.alignment))]
  }

  function MaxAlignment(reqs: seq<Requirement>): nat {
    if |reqs| == 0 then 0
    else
      var rest, last := MaxAlignment(reqs[..|reqs| - 1]), reqs[|reqs| - 1].alignment;
      if last > rest then last else rest
  }

  function PlanFor(reqs: seq<Requirement>, arena: Option<Arena>): Plan {
    Plan(Layout(reqs), End(reqs), MaxAlignment(reqs), arena)
  }

  /** The layout is representable and the arena, if there is one, can hold it. */
  predicate Fits(reqs: seq<Requirement>, arena: Option<Arena>) {
    && End(reqs) <= SIZE_MAX
    && (arena.Some? ==> End(reqs) <= arena.value.size && MaxAlignment(reqs) <= arena.value.alignment)
  }

  function RequirementOf(node: Node): Option<Requirement> {
    match node.work
    case Workspace(size, alignment) => Some(Requirement(node.id, size, alignment))
    case WorkspaceFill(size, alignment, _, _, _) => Some(Requirement(node.id, size, alignment))
    case _ => None
  }

  /** The requirements of a graph's workspace nodes, in schedule order. */
  function Requirements(nodes: seq<Node>, order: seq<nat>): seq<Requirement>
    requires forall i :: 0 <= i < |order| ==> order[i] < |nodes|
  {
    if |order| == 0 then []
    else
      var rest := Requirements(nodes, order[..|order| - 1]);
      match RequirementOf(nodes[order[|order| - 1]])
      case Some(r) => rest + [r]
      case None => rest
  }

  // ---- what the layout guarantees ----

  lemma {:induction false} LayoutAt(reqs: seq<Requirement>, k: nat)
    requires k < |reqs|
    ensures Layout(reqs)[k] == Record(reqs[k].node, reqs[k].size, reqs[k].alignment,
                                      RoundUp(End(reqs[..k]), reqs[k].alignment))
    ensures End(reqs[..k + 1]) == Layout(reqs)[k].offset + reqs[k].size
    decreases |reqs|
  {
    var n := |reqs| - 1;
    assert reqs[..k + 1][..k] == reqs[..k];
    if k < n {
      LayoutAt(reqs[..n], k);
      assert reqs[..n][..k] == reqs[..k] && reqs[..n][..k + 1] == reqs[..k + 1];
    } else {
      assert reqs[..k + 1] == reqs;
    }
  }

  lemma {:induction false} EndGrows(reqs: seq<Requirement>, i: nat, j: nat)
    requires i <= j <= |reqs|
    ensures End(reqs[..i]) <= End(reqs[..j])
    decreases j - i
  {
    if i < j {
      EndGrows(reqs, i, j - 1);
      assert reqs[..j][..j - 1] == reqs[..j - 1];
      var a := reqs[j - 1].alignment;
      if a > 0 {
        RoundUpBounds(End(reqs[..j - 1]), a);
      }
    }
  }

  /** Each slice sits at the least aligned offset past the one before it. */
  lemma SlicesAreLeast(reqs: seq<Requirement>, k: nat)
    requires RequirementsOk(reqs) && k < |reqs|
    ensures IsLeastMultiple(Layout(reqs)[k].offset,
                            if k == 0 then 0 else Layout(reqs)[k - 1].offset + reqs[k - 1].size,
                            reqs[k].alignment)
  {
    assert RequirementOk(reqs[k]);
    LayoutAt(reqs, k);
    if k > 0 {
      LayoutAt(reqs, k - 1);
    } else {
      assert reqs[..0] == [];
    }
    RoundUpIsLeast(End(reqs[..k]), reqs[k].alignment);
  }

  /** Slices follow the schedule, do not overlap, and end inside the total. */
  lemma SlicesAreDisjoint(reqs: seq<Requirement>, i: nat, j: nat)
    requires RequirementsOk(reqs) && i < j < |reqs|
    ensures Layout(reqs)[i].offset + reqs[i].size <= Layout(reqs)[j].offset
    ensures Layout(reqs)[j].offset + reqs[j].size <= End(reqs)
  {
    hide Layout, End, RoundUp;
    assert RequirementOk(reqs[j]);
    LayoutAt(reqs, i);
    LayoutAt(reqs, j);
    EndGrows(reqs, i + 1, j);
    RoundUpBounds(End(reqs[..j]), reqs[j].alignment);
    EndGrows(reqs, j + 1, |reqs|);
    assert reqs[..|reqs|] == reqs;
  }

  lemma SliceIsInside(reqs: seq<Requirement>, i: nat)
    requires i < |reqs|
    ensures Layout(reqs)[i].offset + reqs[i].size <= End(reqs)
  {
    LayoutAt(reqs, i);
    EndGrows(reqs, i + 1, |reqs|);
    assert reqs[..|reqs|] == reqs;
  }

  lemma {:induction false} AlignmentBounded(reqs: seq<Requirement>, k: nat)
    requires RequirementsOk(reqs) && k < |reqs|
    ensures reqs[k].alignment <= MaxAlignment(reqs)
    ensures AlignmentValid(MaxAlignment(reqs))
    decreases |reqs|
  {
    var n := |reqs| - 1;
    assert RequirementOk(reqs[n]);
    if k < n {
      AlignmentBounded(reqs[..n], k);
    } else if n > 0 {
      AlignmentBounded(reqs[..n], 0);
    } else {
      assert MaxAlignment(reqs[..n]) == 0;
    }
  }

  /** What creating an arena checks. */
  predicate ArenaOk(arena: Arena) {
    arena.size > 0 && AlignmentValid(arena.alignment)
  }

  /** Creates an arena descriptor, born with the caller's reference. */
  method CreateArena(heap: Heap, address: nat, size: Size, alignment: Size, allocates: bool)
    returns (status: Status, arena: Arena)
    requires heap.Valid() && ArenaRef(Arena(address, size, alignment)) !in heap.counts
    modifies heap
    ensures heap.Valid() && arena == Arena(address, size, alignment)
    ensures status == if !ArenaOk(arena) then InvalidArgument else if allocates then Ok else OutOfMemory
    ensures status == InvalidArgument <==> size == 0 || !IsPowerOfTwo(alignment)
    ensures heap.refs == old(heap.refs) + (if status == Ok then multiset{ArenaRef(arena)} else multiset{})
  {
    hide IsPowerOfTwo, AlignmentValid;
    AlignmentValidIffPowerOfTwo(alignment);
    arena := Arena(address, size, alignment);
    if size == 0 {
      return InvalidArgument, arena;
    }
    if !AlignmentValid(alignment) {
      return InvalidArgument, arena;
    }
    if !allocates {
      return OutOfMemory, arena;
    }
    heap.Allocate(ArenaRef(arena));
    return Ok, arena;
  }

  lemma SliceIsAligned(reqs: seq<Requirement>, k: nat)
    requires RequirementsOk(reqs) && k < |reqs|
    ensures AlignmentValid(reqs[k].alignment) && Layout(reqs)[k].offset % reqs[k].alignment == 0
  {
    assert RequirementOk(reqs[k]);
    SlicesAreLeast(reqs, k);
  }

  /** The alignments a base may have: the plan's own, or that of an attached arena. */
  predicate IsBaseAlignment(plan: Plan, big: nat) {
    big == plan.alignment || (plan.arena.Some? && big == plan.arena.value.alignment)
  }

  lemma BaseCoversAlignments(reqs: seq<Requirement>, arena: Option<Arena>, big: nat, k: nat)
    requires RequirementsOk(reqs) && Fits(reqs, arena) && (arena.Some? ==> ArenaOk(arena.value)) && k < |reqs|
    requires IsBaseAlignment(PlanFor(reqs, arena), big)
    ensures AlignmentValid(big) && reqs[k].alignment <= big
  {
    hide RequirementsOk, AlignmentValid, MaxAlignment, End;
    AlignmentBounded(reqs, k);
  }

  /**
   Any base aligned to the plan's alignment, or to that of an arena that was accepted, puts every
   slice at an address aligned as its node asked.
   */
  lemma AbsoluteAddressesAligned(
      reqs: seq<Requirement>, arena: Option<Arena>, big: nat, base: nat, k: nat)
    requires RequirementsOk(reqs) && Fits(reqs, arena) && (arena.Some? ==> ArenaOk(arena.value)) && k < |reqs|
    requires IsBaseAlignment(PlanFor(reqs, arena), big) && big > 0 && base % big == 0
    ensures reqs[k].alignment > 0 && (base + Layout(reqs)[k].offset) % reqs[k].alignment == 0
  {
    hide RequirementsOk, Fits, ArenaOk, IsBaseAlignment, PlanFor, Layout, And;
    SliceIsAligned(reqs, k);
    BaseCoversAlignments(reqs, arena, big, k);
    AlignedBase(base, big, Layout(reqs)[k].offset, reqs[k].alignment);
  }

  // ---- the layout is the smallest one, so a refusal is never premature ----

  /** Some offsets that give every node an aligned slice, in schedule order, without overlap. */
  predicate IsPlacement(reqs: seq<Requirement>, offsets: seq<nat>)
    requires RequirementsOk(reqs)
  {
    && |offsets| == |reqs|
    && (forall k :: 0 <= k < |reqs| ==> RequirementOk(reqs[k]) && offsets[k] % reqs[k].alignment == 0)
    && (forall k :: 0 < k < |reqs| ==> offsets[k - 1] + reqs[k - 1].size <= offsets[k])
  }

  function PlacementEnd(reqs: seq<Requirement>, offsets: seq<nat>): nat
    requires |offsets| == |reqs|
  {
    if |reqs| == 0 then 0 else offsets[|reqs| - 1] + reqs[|reqs| - 1].size
  }

  function Offsets(reqs: seq<Requirement>): (r: seq<nat>)
    ensures |r| == |reqs|
  {
    seq(|reqs|, k requires 0 <= k < |reqs| => Layout(reqs)[k].offset)
  }

  lemma LayoutIsPlacement(reqs: seq<Requirement>)
    requires RequirementsOk(reqs)
    ensures IsPlacement(reqs, Offsets(reqs)) && PlacementEnd(reqs, Offsets(reqs)) == End(reqs)
  {
    forall k | 0 <= k < |reqs|
      ensures RequirementOk(reqs[k]) && Offsets(reqs)[k] % reqs[k].alignment == 0
      ensures k > 0 ==> Offsets(reqs)[k - 1] + reqs[k - 1].size <= Offsets(reqs)[k]
    {
      SlicesAreLeast(reqs, k);
    }
    if |reqs| > 0 {
      LayoutAt(reqs, |reqs| - 1);
      assert reqs[..|reqs|] == reqs;
    }
  }

  /** No placement ends before the planner's. */
  lemma {:induction false} LayoutIsSmallest(reqs: seq<Requirement>, offsets: seq<nat>)
    requires RequirementsOk(reqs) && IsPlacement(reqs, offsets)
    ensures End(reqs) <= PlacementEnd(reqs, offsets)
  {
    if |reqs| > 0 {
      var n := |reqs| - 1;
      LayoutIsSmallest(reqs[..n], offsets[..n]);
      assert RequirementOk(reqs[n]);
      RoundUpIsLeast(End(reqs[..n]), reqs[n].alignment);
    }
  }

  /** The arena, if there is one, reaches up to the end and is aligned as strictly as any node asks. */
  ghost predicate ArenaHolds(reqs: seq<Requirement>, end: nat, arena: Option<Arena>) {
    arena.Some? ==>
      end <= arena.value.size && forall k :: 0 <= k < |reqs| ==> reqs[k].alignment <= arena.value.alignment
  }

  /** Every request is usable, and there is room for all of them: in `size_t`, and in the arena. */
  ghost predicate CanBePlaced(reqs: seq<Requirement>, arena: Option<Arena>) {
    RequirementsOk(reqs)
    && exists offsets :: IsPlacement(reqs, offsets) && PlacementEnd(reqs, offsets) <= SIZE_MAX
                         && ArenaHolds(reqs, PlacementEnd(reqs, offsets), arena)
  }

  /** The largest alignment is that of some request, so a limit holds for it when it holds for all. */
  lemma {:induction false} MaxAlignmentWithin(reqs: seq<Requirement>, limit: nat)
    ensures MaxAlignment(reqs) <= limit <==> forall k :: 0 <= k < |reqs| ==> reqs[k].alignment <= limit
  {
    if |reqs| > 0 {
      var n := |reqs| - 1;
      MaxAlignmentWithin(reqs[..n], limit);
      assert forall k :: 0 <= k < n ==> reqs[..n][k] == reqs[k];
    }
  }

  /**
   What the planner checks of its own layout decides for every layout there could be: it refuses only
   what cannot be placed at all, an arena of exactly the size included among those that hold.
   */
  lemma FitsIffPlaceable(reqs: seq<Requirement>, arena: Option<Arena>)
    ensures RequirementsOk(reqs) && Fits(reqs, arena) <==> CanBePlaced(reqs, arena)
  {
    hide RequirementsOk, RequirementOk, End, MaxAlignment;
    if arena.Some? {
      MaxAlignmentWithin(reqs, arena.value.alignment);
    }
    if RequirementsOk(reqs) {
      LayoutIsPlacement(reqs);
      if offsets :| IsPlacement(reqs, offsets) && PlacementEnd(reqs, offsets) <= SIZE_MAX
                    && ArenaHolds(reqs, PlacementEnd(reqs, offsets), arena) {
        LayoutIsSmallest(reqs, offsets);
      }
    }
  }

  // ---- the planner itself ----

  class WorkspacePlan {
    var records: seq<Record>
    var totalSize: Size
    var alignment: Size
    var arena: Option<Arena>

    function State(): Plan
      reads this
    {
      Plan(records, totalSize, alignment, arena)
    }

    constructor ()
      ensures State() == EMPTY_PLAN
    {
      records, totalSize, alignment, arena := [], 0, 0, None;
    }

    /** Adds one slice at the end, unless it does not fit a `size_t` or there is no memory. */
    method Append(node: NodeId, size: Size, align: Size, allocates: bool) returns (status: Status)
      modifies this
      ensures status == if !AlignmentValid(align) || RoundUp(old(totalSize), align) + size > SIZE_MAX
                        then InvalidArgument
                        else if |old(records)| >= MAX_RECORDS || !allocates then OutOfMemory else Ok
      ensures status != Ok ==> State() == old(State())
      ensures status == Ok ==>
                && records == old(records) + [Record(node, size, align, RoundUp(old(totalSize), align))]
                && totalSize == RoundUp(old(totalSize), align) + size
                && alignment == (if align > old(alignment) then align else old(alignment))
                && arena == old(arena)
    {
      var offset := AlignUpSize(totalSize, align);
      if AlignmentValid(align) {
        AlignUpSizeExact(totalSize, align);
      }
      if offset.None? {
        return InvalidArgument;
      }
      if offset.value > SIZE_MAX - size {
        return InvalidArgument;
      }
      if |records| >= MAX_RECORDS || !allocates {
        return OutOfMemory;
      }
      records := records + [Record(node, size, align, offset.value)];
      totalSize := offset.value + size;
      if align > alignment {
        alignment := align;
      }
      return Ok;
    }

    /** Forgets the plan and gives the arena back if it was taken. */
    method Clear(heap: Heap)
      requires heap.Valid() && ArenaRefs(arena) <= heap.refs
      modifies this, heap
      ensures State() == EMPTY_PLAN
      ensures heap.Valid() && heap.refs == old(heap.refs) - ArenaRefs(old(arena))
    {
      heap.ReleaseArena(arena);
      records, totalSize, alignment, arena := [], 0, 0, None;
    }

    /** Lays out the workspace nodes of a schedule, stopping at the first that cannot be placed. */
    method AppendAll(nodes: seq<Node>, order: seq<nat>, failing: set<nat>) returns (status: Status)
      requires State() == EMPTY_PLAN
      requires forall i :: 0 <= i < |order| ==> order[i] < |nodes|
      modifies this
      ensures arena == None
      ensures status in {Ok, InvalidArgument, OutOfMemory}
      ensures var reqs := Requirements(nodes, order);
        && (status == Ok ==> Placeable(reqs) && State() == PlanFor(reqs, None))
        && (status == InvalidArgument ==> !Placeable(reqs))
        && (status == OutOfMemory ==> RecordsFail(|reqs|, failing))
        && (status == Ok ==> !RecordsFail(|reqs|, failing))
    {
      hide Requirements, Placeable, PlanFor, RecordsFail;
      NothingPlanned(nodes, order, failing);
      for ordinal := 0 to |order|
        invariant State() == PlanFor(Requirements(nodes, order[..ordinal]), None)
        invariant Placeable(Requirements(nodes, order[..ordinal]))
        invariant !RecordsFail(|Requirements(nodes, order[..ordinal])|, failing)
      {
        status := AppendNode(nodes, order, ordinal, failing);
        if status != Ok {
          PlanForHasArena(Requirements(nodes, order[..ordinal]), None);
          return;
        }
      }
      assert order[..|order|] == order;
      PlanForHasArena(Requirements(nodes, order), None);
      return Ok;
    }

    /** Lays out the next node of a schedule, if it is a workspace node. */
    method AppendNode(nodes: seq<Node>, order: seq<nat>, ordinal: nat, failing: set<nat>) returns (status: Status)
      requires ordinal < |order| && forall i :: 0 <= i < |order| ==> order[i] < |nodes|
      requires State() == PlanFor(Requirements(nodes, order[..ordinal]), None)
      requires Placeable(Requirements(nodes, order[..ordinal]))
      requires !RecordsFail(|Requirements(nodes, order[..ordinal])|, failing)
      modifies this
      ensures status in {Ok, InvalidArgument, OutOfMemory}
      ensures status != Ok ==> State() == old(State())
      ensures status == Ok ==>
                && State() == PlanFor(Requirements(nodes, order[..ordinal + 1]), None)
                && Placeable(Requirements(nodes, order[..ordinal + 1]))
                && !RecordsFail(|Requirements(nodes, order[..ordinal + 1])|, failing)
      ensures status == InvalidArgument ==> !Placeable(Requirements(nodes, order))
      ensures status == OutOfMemory ==> RecordsFail(|Requirements(nodes, order)|, failing)
    {
      hide RequirementOf, AlignmentValid, RequirementsOk, Requirements, RecordsFail, RoundUp, End, Layout,
           MaxAlignment, Placeable;
      var node := nodes[order[ordinal]];
      ghost var before := Requirements(nodes, order[..ordinal]);
      var req := RequirementOf(node);
      if req.None? {
        RequirementsSkip(nodes, order, ordinal);
        return Ok;
      }
      var size, align := req.value.size, req.value.alignment;
      StepIsPrefix(nodes, order, ordinal, req.value);
      OneMore(before, req.value);
      OneRecordMore(|before|, |Requirements(nodes, order)|, failing);
      RefusalIfUnplaceable(before, req.value, Requirements(nodes, order));
      if size == 0 || !AlignmentValid(align) {
        return InvalidArgument;
      }
      NamesItsNode(node);
      status := Append(node.id, size, align, |records| !in failing);
    }

    /**
     Plans a whole graph. Short of memory failures (`failing` names the record allocations that
     fail) it succeeds exactly when some placement fits `size_t` and the arena; whenever it does not
     succeed, the plan is empty and no reference has moved.
     */
    method Build(nodes: seq<Node>, order: seq<nat>, graphArena: Option<Arena>, heap: Heap, failing: set<nat>)
      returns (status: Status)
      requires State() == EMPTY_PLAN && heap.Valid()
      requires forall i :: 0 <= i < |order| ==> order[i] < |nodes|
      requires ArenaRefs(graphArena) <= heap.refs
      modifies this, heap
      ensures heap.Valid()
      ensures status in {Ok, InvalidArgument, OutOfMemory}
      ensures var reqs := Requirements(nodes, order);
        && (status == Ok ==> RequirementsOk(reqs) && Fits(reqs, graphArena) && CanBePlaced(reqs, graphArena))
        && (status == InvalidArgument ==> !CanBePlaced(reqs, graphArena))
        && (status == OutOfMemory ==> RecordsFail(|reqs|, failing))
        && (status == Ok ==> !RecordsFail(|reqs|, failing))
        && State() == (if status == Ok then PlanFor(reqs, graphArena) else EMPTY_PLAN)
      ensures heap.refs == old(heap.refs) + (if status == Ok then ArenaRefs(graphArena) else multiset{})
    {
      hide Requirements, RequirementsOk, RecordsFail, End, Layout, MaxAlignment, CanBePlaced, Heap.Valid;
      FitsIffPlaceable(Requirements(nodes, order), graphArena);
      status := AppendAll(nodes, order, failing);
      if status != Ok {
        Clear(heap);
        return;
      }
      if graphArena.Some? {
        if totalSize > graphArena.value.size {
          Clear(heap);
          return InvalidArgument;
        }
        if alignment > graphArena.value.alignment {
          Clear(heap);
          return InvalidArgument;
        }
        arena := graphArena;
        heap.Retain(ArenaRef(graphArena.value));
      }
      return Ok;
    }
  }

  /** Among the first `count` records one cannot be had. */
  predicate RecordsFail(count: nat, failing: set<nat>) {
    count > MAX_RECORDS || exists k :: k in failing && k < count
  }

  lemma OneRecordMore(count: nat, all: nat, failing: set<nat>)
    requires !RecordsFail(count, failing) && count < all
    ensures count >= MAX_RECORDS || count in failing ==> RecordsFail(all, failing)
    ensures count < MAX_RECORDS && count !in failing ==> !RecordsFail(count + 1, failing)
  {
  }

  lemma NothingPlanned(nodes: seq<Node>, order: seq<nat>, failing: set<nat>)
    requires forall i :: 0 <= i < |order| ==> order[i] < |nodes|
    ensures order[..0] == [] && Requirements(nodes, []) == []
    ensures PlanFor([], None) == EMPTY_PLAN && Placeable([]) && !RecordsFail(0, failing)
  {
  }

  lemma PlanForHasArena(reqs: seq<Requirement>, arena: Option<Arena>)
    ensures PlanFor(reqs, arena).arena == arena
  {
  }

  /** Every requirement is usable and the whole layout is a `size_t`. */
  predicate Placeable(reqs: seq<Requirement>) {
    RequirementsOk(reqs) && End(reqs) <= SIZE_MAX
  }

  lemma OneMore(before: seq<Requirement>, req: Requirement)
    ensures Layout(before + [req])
         == Layout(before) + [Record(req.node, req.size, req.alignment, RoundUp(End(before), req.alignment))]
    ensures End(before + [req]) == RoundUp(End(before), req.alignment) + req.size
    ensures MaxAlignment(before + [req])
         == if req.alignment > MaxAlignment(before) then req.alignment else MaxAlignment(before)
    ensures Placeable(before + [req])
       <==> Placeable(before) && RequirementOk(req) && End(before + [req]) <= SIZE_MAX
  {
    var all := before + [req];
    assert all[..|before|] == before;
    assert forall k :: 0 <= k < |before| ==> all[k] == before[k];
    EndGrows(all, |before|, |all|);
    assert all[..|all|] == all;
    if Placeable(all) {
      assert RequirementOk(all[|before|]);
      forall k | 0 <= k < |before| ensures RequirementOk(before[k]) {
        assert RequirementOk(all[k]);
      }
    }
  }

  lemma NamesItsNode(node: Node)
    requires RequirementOf(node).Some?
    ensures RequirementOf(node).value.node == node.id
  {
  }

  /** What cannot be placed after a prefix cannot be placed at all. */
  lemma RefusalIsFinal(before: seq<Requirement>, req: Requirement, all: seq<Requirement>)
    requires before + [req] <= all
    requires !RequirementOk(req) || RoundUp(End(before), req.alignment) + req.size > SIZE_MAX
    ensures !Placeable(all)
  {
    var n := |before|;
    assert all[n] == req && before + [req] == all[..n + 1];
    OneMore(before, req);
    EndGrows(all, n + 1, |all|);
    assert all[..|all|] == all;
  }

  lemma RefusalIfUnplaceable(before: seq<Requirement>, req: Requirement, all: seq<Requirement>)
    requires before + [req] <= all
    ensures !RequirementOk(req) || RoundUp(End(before), req.alignment) + req.size > SIZE_MAX ==> !Placeable(all)
  {
    hide Placeable, RoundUp, End, RequirementOk;
    if !RequirementOk(req) || RoundUp(End(before), req.alignment) + req.size > SIZE_MAX {
      RefusalIsFinal(before, req, all);
    }
  }

  lemma RequirementsSkip(nodes: seq<Node>, order: seq<nat>, i: nat)
    requires forall k :: 0 <= k < |order| ==> order[k] < |nodes|
    requires i < |order| && RequirementOf(nodes[order[i]]).None?
    ensures Requirements(nodes, order[..i + 1]) == Requirements(nodes, order[..i])
  {
    assert order[..i + 1][..i] == order[..i];
  }

  lemma RequirementsStep(nodes: seq<Node>, order: seq<nat>, i: nat, req: Requirement)
    requires forall k :: 0 <= k < |order| ==> order[k] < |nodes|
    requires i < |order| && RequirementOf(nodes[order[i]]) == Some(req)
    ensures Requirements(nodes, order[..i + 1]) == Requirements(nodes, order[..i]) + [req]
  {
    assert order[..i + 1][..i] == order[..i];
  }

  lemma StepIsPrefix(nodes: seq<Node>, order: seq<nat>, i: nat, req: Requirement)
    requires forall k :: 0 <= k < |order| ==> order[k] < |nodes|
    requires i < |order| && RequirementOf(nodes[order[i]]) == Some(req)
    ensures Requirements(nodes, order[..i + 1]) == Requirements(nodes, order[..i]) + [req]
    ensures Requirements(nodes, order[..i]) + [req] <= Requirements(nodes, order)
  {
    hide *;
    RequirementsStep(nodes, order, i, req);
    RequirementsPrefix(nodes, order, i + 1);
  }

  lemma {:induction false} RequirementsPrefix(nodes: seq<Node>, order: seq<nat>, i: nat)
    requires forall k :: 0 <= k < |order| ==> order[k] < |nodes|
    requires i <= |order|
    ensures Requirements(nodes, order[..i]) <= Requirements(nodes, order)
    decreases |order|
  {
    if i == |order| {
      assert order[..i] == order;
    } else {
      var n := |order| - 1;
      RequirementsPrefix(nodes, order[..n], i);
      assert order[..n][..i] == order[..i];
    }
  }

  // ---- looking a node up ----

  predicate IsFirstRecord(records: seq<Record>, node: NodeId, k: nat)
    requires k < |records|
  {
    records[k].node == node && forall j :: 0 <= j < k ==> records[j].node != node
  }

  /** The first record of a node, as the loop finds it. */
  method OffsetForNode(records: seq<Record>, node: NodeId) returns (r: Option<nat>)
    ensures r.Some? ==> exists k :: 0 <= k < |records| && IsFirstRecord(records, node, k)
                                    && records[k].offset == r.value
    ensures r.None? ==> forall k :: 0 <= k < |records| ==> records[k].node != node
  {
    for i := 0 to |records|
      invariant forall k :: 0 <= k < i ==> records[k].node != node
    {
      if records[i].node == node {
        return Some(records[i].offset);
      }
    }
    return None;
  }
}
