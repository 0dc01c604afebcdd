/** Launching an executable graph, waiting for a launch, and destroying one. */
module Launching {
  import opened Prelude
  import opened Model
  import opened Heaps
  import opened Commands
  import opened Exec
  import opened Patching

  // ---- what a launch retains ----

  /** The buffers of all nodes, one entry per occurrence, in encoding order. */
  function AllBuffers(nodes: seq<ExecNode>): seq<Buffer> {
    if |nodes| == 0 then [] else AllBuffers(nodes[..|nodes| - 1]) + WorkBuffers(nodes[|nodes| - 1].work)
  }

  function AllEvents(nodes: seq<ExecNode>): seq<Event> {
    if |nodes| == 0 then [] else AllEvents(nodes[..|nodes| - 1]) + WorkEvents(nodes[|nodes| - 1].work)
  }

  function HeldRefs(buffers: seq<Buffer>, events: seq<Event>): multiset<Ref> {
    multiset(BufferSlots(buffers)) + multiset(EventSlots(events))
  }

  lemma BufferSlotsConcat(a: seq<Buffer>, b: seq<Buffer>)
    ensures BufferSlots(a + b) == BufferSlots(a) + BufferSlots(b)
  {
  }

  lemma EventSlotsConcat(a: seq<Event>, b: seq<Event>)
    ensures EventSlots(a + b) == EventSlots(a) + EventSlots(b)
  {
  }

  lemma HoldMore(buffers: seq<Buffer>, events: seq<Event>, w: Work)
    ensures HeldRefs(buffers + WorkBuffers(w), events + WorkEvents(w)) == HeldRefs(buffers, events) + WorkRefs(w)
  {
    hide WorkBuffers, WorkEvents;
    BufferSlotsConcat(buffers, WorkBuffers(w));
    EventSlotsConcat(events, WorkEvents(w));
  }

  /** A launch holds one reference per slot of the exec's nodes. */
  lemma {:induction false} HeldIsNodesRefs(nodes: seq<ExecNode>)
    ensures HeldRefs(AllBuffers(nodes), AllEvents(nodes)) == WorksRefs(ExecWorks(nodes))
  {
    hide WorkBuffers, WorkEvents, WorkRefs;
    if |nodes| == 0 {
      NothingHeld();
    } else {
      var rest, last := nodes[..|nodes| - 1], nodes[|nodes| - 1];
      HeldIsNodesRefs(rest);
      HoldMore(AllBuffers(rest), AllEvents(rest), last.work);
      WorksRefsSnoc(ExecWorks(rest), last.work);
      assert ExecWorks(nodes) == ExecWorks(rest) + [last.work];
    }
  }

  lemma NothingHeld()
    ensures HeldRefs([], []) == multiset{}
  {
  }

  /** The encoding pass reaches a node with room left for what the node refers to. */
  lemma {:induction false} PrefixFits(nodes: seq<ExecNode>, i: nat)
    requires i < |nodes|
    ensures AllBuffers(nodes[..i + 1]) == AllBuffers(nodes[..i]) + WorkBuffers(nodes[i].work)
    ensures AllEvents(nodes[..i + 1]) == AllEvents(nodes[..i]) + WorkEvents(nodes[i].work)
    ensures EncodedStream(nodes[..i + 1]) == EncodeNext(EncodedStream(nodes[..i]), nodes[i])
    ensures |AllBuffers(nodes[..i + 1])| <= |AllBuffers(nodes)|
    ensures |AllEvents(nodes[..i + 1])| <= |AllEvents(nodes)|
    decreases |nodes| - i
  {
    hide WorkBuffers, WorkEvents, EncodeNext;
    assert nodes[..i + 1][..i] == nodes[..i];
    if i + 1 < |nodes| {
      PrefixFits(nodes, i + 1);
    } else {
      assert nodes[..i + 1] == nodes;
    }
  }

  // ---- the commit log ----

  /** The command buffers of a log, without the marks of the host. */
  function CommandBuffers(log: seq<Segment>): (r: seq<seq<Command>>)
    ensures |r| == |log|
  {
    seq(|log|, k requires 0 <= k < |log| => log[k].commands)
  }

  lemma CommandBuffersSnoc(log: seq<Segment>, segment: Segment)
    ensures CommandBuffers(log + [segment]) == CommandBuffers(log) + [segment.commands]
  {
  }

  /**
   A log that was cut short: a front part of the whole, except that the host may not have got round to
   waiting for the last command buffer.
   */
  ghost predicate IsPartOf(log: seq<Segment>, whole: seq<Segment>) {
    && |log| <= |whole|
    && (forall k :: 0 <= k < |log| - 1 ==> log[k] == whole[k])
    && (forall k :: 0 <= k < |log| ==> log[k].commands == whole[k].commands && (log[k].waited ==> whole[k].waited))
  }

  lemma FrontIsPart(log: seq<Segment>, whole: seq<Segment>)
    requires log <= whole
    ensures IsPartOf(log, whole)
  {
  }

  lemma UnwaitedIsPart(log: seq<Segment>, commands: seq<Command>, waited: bool, whole: seq<Segment>)
    requires log + [Segment(commands, waited)] <= whole
    ensures IsPartOf(log + [Segment(commands, false)], whole)
  {
    assert forall k :: 0 <= k < |log| ==> (log + [Segment(commands, waited)])[k] == log[k];
    assert (log + [Segment(commands, waited)])[|log|] == whole[|log|];
  }

  /** Encoding more nodes only adds to what was committed. */
  lemma {:induction false} CommittedGrows(nodes: seq<ExecNode>, i: nat)
    requires i <= |nodes|
    ensures EncodedStream(nodes[..i]).committed <= EncodedStream(nodes).committed <= Segments(nodes)
    decreases |nodes| - i
  {
    hide Encode;
    if i < |nodes| {
      assert nodes[..i + 1][..i] == nodes[..i];
      CommittedGrows(nodes, i + 1);
    } else {
      assert nodes[..i] == nodes;
    }
  }

  // ---- what can go wrong ----

  /** The requests of a launch; `i` is a node's position, `k` counts committed buffers. */
  datatype LaunchFault =
    | FirstCommandBuffer | NewLaunch | BufferTable | EventTable | IcbEncoder
    | Encoder(i: nat) | TensorEncode(i: nat) | CommittedTable(k: nat) | GpuError(i: nat)
    | NextCommandBuffer(i: nat) | AfterTensorCommandBuffer(i: nat)

  predicate RawFails(w: Work, i: nat, faults: set<LaunchFault>) {
    (w.Dispatch? || w.Copy? || w.Fill? || w.WorkspaceFill?) && Encoder(i) in faults
  }

  /** Committing the open work, and waiting for it, fails ahead of a tensor graph. */
  predicate DrainFails(s: Stream, i: nat, faults: set<LaunchFault>) {
    s.open != [] && (CommittedTable(|s.committed|) in faults || GpuError(i) in faults || NextCommandBuffer(i) in faults)
  }

  /** Encoding and committing a tensor graph fails, once the open work is out of the way. */
  predicate TensorFails(committed: nat, i: nat, faults: set<LaunchFault>) {
    TensorEncode(i) in faults || CommittedTable(committed) in faults || AfterTensorCommandBuffer(i) in faults
  }

  predicate NodeFails(nodes: seq<ExecNode>, i: nat, faults: set<LaunchFault>)
    requires i < |nodes|
  {
    var s := EncodedStream(nodes[..i]);
    if nodes[i].work.TensorGraph? then DrainFails(s, i, faults) || TensorFails(|Drained(s).committed|, i, faults)
    else RawFails(nodes[i].work, i, faults)
  }

  predicate DirectFails(nodes: seq<ExecNode>, faults: set<LaunchFault>) {
    || (exists i :: 0 <= i < |nodes| && NodeFails(nodes, i, faults))
    || (var s := EncodedStream(nodes);
        (s.open != [] || nodes == []) && CommittedTable(|s.committed|) in faults)
  }

  /** The first node whose encoding fails, or the number of nodes. */
  function FirstFailing(nodes: seq<ExecNode>, i: nat, faults: set<LaunchFault>): (k: nat)
    requires i <= |nodes|
    ensures i <= k <= |nodes|
    ensures k < |nodes| ==> NodeFails(nodes, k, faults)
    ensures forall j :: i <= j < k ==> !NodeFails(nodes, j, faults)
    decreases |nodes| - i
  {
    if i == |nodes| || NodeFails(nodes, i, faults) then i else FirstFailing(nodes, i + 1, faults)
  }

  /** What is committed once a tensor graph was encoded, or its encoding failed. */
  function TensorLog(s: Stream, n: ExecNode, i: nat, faults: set<LaunchFault>): seq<Segment> {
    if s.open != [] && CommittedTable(|s.committed|) in faults then s.committed + [Segment(s.open, false)]
    else if DrainFails(s, i, faults) || TensorEncode(i) in faults then Drained(s).committed
    else EncodeNext(s, n).committed
  }

  /** What is committed once a node was encoded, or its encoding failed. */
  function NodeLog(nodes: seq<ExecNode>, i: nat, faults: set<LaunchFault>): seq<Segment>
    requires i < |nodes|
  {
    var s := EncodedStream(nodes[..i]);
    if nodes[i].work.TensorGraph? then TensorLog(s, nodes[i], i, faults) else s.committed
  }

  function DirectLog(nodes: seq<ExecNode>, faults: set<LaunchFault>): seq<Segment> {
    var i := FirstFailing(nodes, 0, faults);
    if i < |nodes| then NodeLog(nodes, i, faults) else Segments(nodes)
  }

  predicate TablesFail(nodes: seq<ExecNode>, faults: set<LaunchFault>) {
    || (AllBuffers(nodes) != [] && BufferTable in faults)
    || (AllEvents(nodes) != [] && EventTable in faults)
  }

  /** One of the requests that launching this very exec makes is refused. */
  predicate LaunchFails(s: ExecState, faults: set<LaunchFault>) {
    FailsEarly(s, faults) || EncodingFails(s, faults)
  }

  predicate EncodingFails(s: ExecState, faults: set<LaunchFault>) {
    if UsesIcb(s.icb) then IcbEncoder in faults || CommittedTable(0) in faults else DirectFails(s.nodes, faults)
  }

  /** A launch that failed: the point it reached and what it had committed by then. */
  datatype Failed = Failed(point: FailurePoint, log: seq<Segment>)

  predicate FailsEarly(s: ExecState, faults: set<LaunchFault>) {
    FirstCommandBuffer in faults || NewLaunch in faults || TablesFail(s.nodes, faults)
  }

  /** What the encoding of a launch commits, up to its end or to the first refused request. */
  function EncodingLog(s: ExecState, faults: set<LaunchFault>): seq<Segment> {
    if !UsesIcb(s.icb) then DirectLog(s.nodes, faults)
    else if IcbEncoder in faults then []
    else [Segment(s.icb.commands.value, false)]
  }

  function EncodingPoint(s: ExecState, faults: set<LaunchFault>): FailurePoint {
    if UsesIcb(s.icb) && IcbEncoder !in faults then AfterReplay else WhileEncoding
  }

  /** How a launch of this exec fails when these requests are refused. */
  function FailureOf(s: ExecState, faults: set<LaunchFault>): Failed {
    if FailsEarly(s, faults) then Failed(BeforeCounters, [])
    else Failed(EncodingPoint(s, faults), EncodingLog(s, faults))
  }

  /** Whatever a tensor graph's failure leaves committed is a part of what its success commits. */
  lemma TensorLogIsPart(s: Stream, n: ExecNode, i: nat, faults: set<LaunchFault>)
    requires n.work.TensorGraph?
    ensures IsPartOf(TensorLog(s, n, i, faults), EncodeNext(s, n).committed)
  {
    hide Encode, IsPartOf;
    var whole := EncodeNext(s, n).committed;
    FrontIsPart(whole, whole);
    FrontIsPart(Drained(s).committed, whole);
    if s.open != [] {
      UnwaitedIsPart(s.committed, s.open, true, whole);
    }
  }

  lemma NodeLogIsPart(nodes: seq<ExecNode>, i: nat, faults: set<LaunchFault>)
    requires i < |nodes|
    ensures IsPartOf(NodeLog(nodes, i, faults), Segments(nodes))
  {
    hide IsPartOf, TensorLog, EncodedStream, Segments, EncodeNext;
    CommittedGrows(nodes, i);
    FrontIsPart(EncodedStream(nodes[..i]).committed, Segments(nodes));
    if nodes[i].work.TensorGraph? {
      TensorLogIsPart(EncodedStream(nodes[..i]), nodes[i], i, faults);
      PrefixFits(nodes, i);
      PartOfSegments(TensorLog(EncodedStream(nodes[..i]), nodes[i], i, faults), nodes, i + 1);
    }
  }

  /** A launch that fails has committed a part of what it would commit if it succeeded. */
  lemma FailureIsPart(s: ExecState, faults: set<LaunchFault>)
    ensures IsPartOf(FailureOf(s, faults).log, LaunchSegments(s))
  {
    hide IsPartOf, NodeLog, Segments, FailsEarly;
    FrontIsPart([], LaunchSegments(s));
    FrontIsPart(LaunchSegments(s), LaunchSegments(s));
    var i := FirstFailing(s.nodes, 0, faults);
    if i < |s.nodes| {
      NodeLogIsPart(s.nodes, i, faults);
    }
  }

  predicate HasUnwaited(log: seq<Segment>) {
    exists k :: 0 <= k < |log| && !log[k].waited
  }

  predicate HasTensorGraph(nodes: seq<ExecNode>) {
    exists j :: 0 <= j < |nodes| && nodes[j].work.TensorGraph?
  }

  /** The encoding of a tensor graph fails once a command buffer was committed that nobody will wait for. */
  predicate TensorLeavesWork(s: Stream, i: nat, faults: set<LaunchFault>) {
    || (s.open != [] && CommittedTable(|s.committed|) in faults)
    || !(DrainFails(s, i, faults) || TensorEncode(i) in faults)
  }

  /**
   Which refused requests leave work with the GPU: on the replay path any but the encoder; on the direct
   path the final table, any request after the first tensor graph, and of those that the first tensor
   graph itself makes the table for its open work and whatever comes after its encoding.
   */
  predicate LeavesWork(s: ExecState, faults: set<LaunchFault>) {
    && !FailsEarly(s, faults)
    && if UsesIcb(s.icb) then IcbEncoder !in faults
       else
         var i := FirstFailing(s.nodes, 0, faults);
         || i == |s.nodes|
         || HasTensorGraph(s.nodes[..i])
         || (s.nodes[i].work.TensorGraph? && TensorLeavesWork(EncodedStream(s.nodes[..i]), i, faults))
  }

  /** Between nodes, only the command buffers of tensor graphs were not waited on. */
  lemma {:induction false} UnwaitedIsTensor(nodes: seq<ExecNode>)
    ensures HasUnwaited(EncodedStream(nodes).committed) <==> HasTensorGraph(nodes)
  {
    hide Encode;
    if |nodes| > 0 {
      var n := |nodes| - 1;
      UnwaitedIsTensor(nodes[..n]);
      UnwaitedStep(EncodedStream(nodes[..n]), nodes[n]);
      assert forall j :: 0 <= j < n ==> nodes[..n][j] == nodes[j];
    }
  }

  lemma UnwaitedStep(s: Stream, n: ExecNode)
    ensures HasUnwaited(EncodeNext(s, n).committed) <==> n.work.TensorGraph? || HasUnwaited(s.committed)
    ensures HasUnwaited(Drained(s).committed) <==> HasUnwaited(s.committed)
  {
    hide Encode, HasUnwaited;
    UnwaitedSnoc(s.committed, Segment(s.open, true));
    UnwaitedSnoc(Drained(s).committed, Segment(Encode(n), false));
  }

  lemma UnwaitedSnoc(log: seq<Segment>, segment: Segment)
    ensures HasUnwaited(log + [segment]) <==> HasUnwaited(log) || !segment.waited
  {
    assert forall k :: 0 <= k < |log| ==> (log + [segment])[k] == log[k];
    assert (log + [segment])[|log|] == segment;
  }

  lemma NodeLeavesWorkIff(nodes: seq<ExecNode>, i: nat, faults: set<LaunchFault>)
    requires i < |nodes|
    ensures HasUnwaited(NodeLog(nodes, i, faults))
       <==> || HasTensorGraph(nodes[..i])
            || (nodes[i].work.TensorGraph? && TensorLeavesWork(EncodedStream(nodes[..i]), i, faults))
  {
    hide EncodedStream, HasUnwaited, HasTensorGraph, EncodeNext, Drained, DrainFails;
    var s := EncodedStream(nodes[..i]);
    UnwaitedIsTensor(nodes[..i]);
    UnwaitedStep(s, nodes[i]);
    UnwaitedSnoc(s.committed, Segment(s.open, false));
  }

  lemma FinalCommitIsUnwaited(nodes: seq<ExecNode>)
    requires EncodedStream(nodes).open != [] || nodes == []
    ensures HasUnwaited(Segments(nodes))
  {
    hide EncodedStream, HasUnwaited;
    UnwaitedSnoc(EncodedStream(nodes).committed, Segment(EncodedStream(nodes).open, false));
  }

  /** A failed launch leaves a command buffer behind that nobody waited for exactly in these cases. */
  lemma LeavesWorkIff(s: ExecState, faults: set<LaunchFault>)
    requires LaunchFails(s, faults)
    ensures HasUnwaited(FailureOf(s, faults).log) <==> LeavesWork(s, faults)
  {
    hide NodeLog, HasTensorGraph, TensorLeavesWork, EncodedStream, Segments, NodeFails, FailsEarly;
    if !FailsEarly(s, faults) {
      if UsesIcb(s.icb) {
        UnwaitedSnoc([], Segment(s.icb.commands.value, false));
      } else if FirstFailing(s.nodes, 0, faults) < |s.nodes| {
        NodeLeavesWorkIff(s.nodes, FirstFailing(s.nodes, 0, faults), faults);
      } else {
        FinalCommitIsUnwaited(s.nodes);
      }
    }
  }

  // ---- the launch object ----

  class Launch {
    var impls: seq<seq<Command>>
    var exec: GraphExec?
    var completed: bool
    var retainedBuffers: array<Buffer>
    var retainedBufferCount: nat
    var retainedEvents: array<Event>
    var retainedEventCount: nat
    /** All command buffers this launch has handed to the GPU, whether or not it still has them. */
    ghost var log: seq<Segment>

    ghost predicate Valid()
      reads this`retainedBuffers, this`retainedBufferCount, this`retainedEvents, this`retainedEventCount
    {
      retainedBufferCount <= retainedBuffers.Length && retainedEventCount <= retainedEvents.Length
    }

    ghost function Buffers(): seq<Buffer>
      requires Valid()
      reads this`retainedBuffers, this`retainedBufferCount, this`retainedEvents, this`retainedEventCount
      reads retainedBuffers
    {
      retainedBuffers[..retainedBufferCount]
    }

    ghost function Events(): seq<Event>
      requires Valid()
      reads this`retainedBuffers, this`retainedBufferCount, this`retainedEvents, this`retainedEventCount, retainedEvents
    {
      retainedEvents[..retainedEventCount]
    }

    /** The references this launch gives back when destroyed. */
    ghost function Held(): multiset<Ref>
      requires Valid()
      reads this`retainedBuffers, this`retainedBufferCount, this`retainedEvents, this`retainedEventCount
      reads retainedBuffers, retainedEvents
    {
      HeldRefs(Buffers(), Events())
    }

    /** Two tables of the counted sizes, both still empty. */
    constructor (bufferCapacity: nat, eventCapacity: nat)
      ensures Valid() && Buffers() == [] && Events() == []
      ensures impls == [] && log == [] && exec == null && !completed
      ensures fresh(retainedBuffers) && retainedBuffers.Length == bufferCapacity
      ensures fresh(retainedEvents) && retainedEvents.Length == eventCapacity
    {
      impls, log, exec, completed := [], [], null, false;
      retainedBuffers := new Buffer[bufferCapacity];
      retainedEvents := new Event[eventCapacity];
      retainedBufferCount, retainedEventCount := 0, 0;
    }

    method KeepBuffer(heap: Heap, buffer: Buffer)
      requires Valid() && heap.Valid() && retainedBufferCount < retainedBuffers.Length && BufferRef(buffer) in heap.refs
      modifies this`retainedBufferCount, retainedBuffers, heap
      ensures Valid() && heap.Valid() && Buffers() == old(Buffers()) + [buffer]
      ensures retainedBufferCount == old(retainedBufferCount) + 1
      ensures heap.refs == old(heap.refs) + multiset{BufferRef(buffer)}
    {
      heap.Retain(BufferRef(buffer));
      retainedBuffers[retainedBufferCount] := buffer;
      retainedBufferCount := retainedBufferCount + 1;
    }

    method KeepEvent(heap: Heap, event: Event)
      requires Valid() && heap.Valid() && retainedEventCount < retainedEvents.Length && EventRef(event) in heap.refs
      modifies this`retainedEventCount, retainedEvents, heap
      ensures Valid() && heap.Valid() && Events() == old(Events()) + [event]
      ensures retainedEventCount == old(retainedEventCount) + 1
      ensures heap.refs == old(heap.refs) + multiset{EventRef(event)}
    {
      heap.Retain(EventRef(event));
      retainedEvents[retainedEventCount] := event;
      retainedEventCount := retainedEventCount + 1;
    }

    method KeepBuffers(heap: Heap, buffers: seq<Buffer>)
      requires Valid() && heap.Valid() && retainedBufferCount + |buffers| <= retainedBuffers.Length
      requires forall b :: b in buffers ==> BufferRef(b) in heap.refs
      modifies this`retainedBufferCount, retainedBuffers, heap
      ensures Valid() && heap.Valid() && Buffers() == old(Buffers()) + buffers
      ensures heap.refs == old(heap.refs) + multiset(BufferSlots(buffers))
    {
      hide BufferSlots, Buffers;
      NoSlots();
      for j := 0 to |buffers|
        invariant Valid() && heap.Valid() && retainedBufferCount == old(retainedBufferCount) + j
        invariant Buffers() == old(Buffers()) + buffers[..j]
        invariant heap.refs == old(heap.refs) + multiset(BufferSlots(buffers[..j]))
      {
        BufferSlotsStep(buffers, j);
        KeepBuffer(heap, buffers[j]);
      }
      assert buffers[..|buffers|] == buffers;
    }

    method KeepEvents(heap: Heap, events: seq<Event>)
      requires Valid() && heap.Valid() && retainedEventCount + |events| <= retainedEvents.Length
      requires forall e :: e in events ==> EventRef(e) in heap.refs
      modifies this`retainedEventCount, retainedEvents, heap
      ensures Valid() && heap.Valid() && Events() == old(Events()) + events
      ensures heap.refs == old(heap.refs) + multiset(EventSlots(events))
    {
      hide EventSlots, Events;
      NoSlots();
      for j := 0 to |events|
        invariant Valid() && heap.Valid() && retainedEventCount == old(retainedEventCount) + j
        invariant Events() == old(Events()) + events[..j]
        invariant heap.refs == old(heap.refs) + multiset(EventSlots(events[..j]))
      {
        EventSlotsStep(events, j);
        KeepEvent(heap, events[j]);
      }
      assert events[..|events|] == events;
    }

    /** Commits a command buffer to the GPU, then keeps it for the synchronization to come. */
    method CommitAndRetain(commands: seq<Command>, faults: set<LaunchFault>) returns (status: Status)
      modifies this`impls, this`log
      ensures log == old(log) + [Segment(commands, false)]
      ensures status == if CommittedTable(|old(impls)|) in faults then OutOfMemory else Ok
      ensures impls == if status == Ok then old(impls) + [commands] else old(impls)
    {
      log := log + [Segment(commands, false)];
      if CommittedTable(|impls|) in faults {
        return OutOfMemory;
      }
      impls := impls + [commands];
      return Ok;
    }

    /** The host blocks until the last committed command buffer is done. */
    ghost method Wait()
      requires log != []
      modifies this`log
      ensures log == old(log)[..|old(log)| - 1] + [Segment(old(log)[|old(log)| - 1].commands, true)]
    {
      log := log[..|log| - 1] + [Segment(log[|log| - 1].commands, true)];
    }

    /** Waits for every committed command buffer; the first wait completes the launch. */
    method Synchronize(gpuError: bool) returns (status: Status)
      modifies this`completed, if exec == null then {} else {exec}
      ensures status == if impls == [] then InvalidArgument else if gpuError then BackendError else Ok
      ensures completed == (old(completed) || impls != [])
      ensures exec != null ==>
                exec.State() == if impls != [] && !old(completed) then AfterComplete(old(exec.State()))
                                else old(exec.State())
    {
      if |impls| == 0 {
        return InvalidArgument;
      }
      status := if gpuError then BackendError else Ok;
      if !completed {
        if exec != null && exec.inFlight > 0 {
          exec.inFlight := exec.inFlight - 1;
        }
        completed := true;
      }
    }

    /** Frees the launch: exactly the references it retained go back. */
    method Destroy(heap: Heap)
      requires Valid() && heap.Valid() && Held() <= heap.refs
      modifies this`impls, heap
      ensures heap.Valid() && heap.refs == old(heap.refs) - old(Held())
    {
      hide BufferSlots, EventSlots;
      heap.ReleaseAll(BufferSlots(retainedBuffers[..retainedBufferCount]));
      heap.ReleaseAll(EventSlots(retainedEvents[..retainedEventCount]));
      impls := [];
    }
  }

  lemma NoSlots()
    ensures BufferSlots([]) == [] && EventSlots([]) == []
    ensures forall b: seq<Buffer> :: b[..0] == []
    ensures forall e: seq<Event> :: e[..0] == []
  {
  }

  lemma BufferSlotsStep(buffers: seq<Buffer>, j: nat)
    requires j < |buffers|
    ensures buffers[..j + 1] == buffers[..j] + [buffers[j]] && buffers[j] in buffers
    ensures multiset(BufferSlots(buffers[..j + 1]))
         == multiset(BufferSlots(buffers[..j])) + multiset{BufferRef(buffers[j])}
  {
    assert BufferSlots(buffers[..j + 1]) == BufferSlots(buffers[..j]) + [BufferRef(buffers[j])];
  }

  lemma EventSlotsStep(events: seq<Event>, j: nat)
    requires j < |events|
    ensures events[..j + 1] == events[..j] + [events[j]] && events[j] in events
    ensures multiset(EventSlots(events[..j + 1])) == multiset(EventSlots(events[..j])) + multiset{EventRef(events[j])}
  {
    assert EventSlots(events[..j + 1]) == EventSlots(events[..j]) + [EventRef(events[j])];
  }

  // ---- encoding ----

  /** First pass: how many references the second pass will take. */
  method CountSlots(nodes: seq<ExecNode>) returns (buffers: nat, events: nat)
    ensures buffers == |AllBuffers(nodes)| && events == |AllEvents(nodes)|
  {
    buffers, events := 0, 0;
    for i := 0 to |nodes|
      invariant buffers == |AllBuffers(nodes[..i])| && events == |AllEvents(nodes[..i])|
    {
      assert nodes[..i + 1][..i] == nodes[..i];
      match nodes[i].work
      case Dispatch(d) => buffers := buffers + |d.buffers|;
      case Copy(_) => buffers := buffers + 2;
      case Fill(_) => buffers := buffers + 1;
      case EventWait(_, _) => events := events + 1;
      case EventSignal(_, _) => events := events + 1;
      case TensorGraph(_, feeds, targets) => buffers := buffers + |feeds| + |targets|;
      case WorkspaceFill(_, _, _, _, _) => buffers := buffers + 1;
      case Barrier =>
      case Workspace(_, _) =>
    }
    assert nodes[..|nodes|] == nodes;
  }

  /** Starting from these holdings and counts, the launch took exactly the references of `w`. */
  ghost predicate Took(
    launch: Launch, heap: Heap, w: Work, buffers: seq<Buffer>, events: seq<Event>, refs: multiset<Ref>)
    reads launch, launch.retainedBuffers, launch.retainedEvents, heap
  {
    && launch.Valid() && heap.Valid()
    && launch.Buffers() == buffers + WorkBuffers(w)
    && launch.Events() == events + WorkEvents(w)
    && heap.refs == refs + WorkRefs(w)
  }

  ghost predicate TookNothing(
    launch: Launch, heap: Heap, buffers: seq<Buffer>, events: seq<Event>, refs: multiset<Ref>)
    reads launch, launch.retainedBuffers, launch.retainedEvents, heap
  {
    && launch.Valid() && heap.Valid()
    && launch.Buffers() == buffers && launch.Events() == events && heap.refs == refs
  }

  /** There is room in the tables for everything `w` refers to, and all of it is live. */
  ghost predicate CanTake(launch: Launch, heap: Heap, w: Work)
    reads launch, heap
  {
    && launch.Valid() && heap.Valid()
    && launch.retainedBufferCount + |WorkBuffers(w)| <= launch.retainedBuffers.Length
    && launch.retainedEventCount + |WorkEvents(w)| <= launch.retainedEvents.Length
    && (forall r :: r in WorkSlots(w) ==> r in heap.refs)
  }

  /** Retains what a node refers to, through the launch's tables. */
  method Take(heap: Heap, launch: Launch, w: Work)
    requires CanTake(launch, heap, w)
    modifies launch`retainedBufferCount, launch`retainedEventCount
    modifies launch.retainedBuffers, launch.retainedEvents, heap
    ensures Took(launch, heap, w, old(launch.Buffers()), old(launch.Events()), old(heap.refs))
  {
    hide WorkBuffers, WorkEvents;
    var buffers, events := WorkBuffers(w), WorkEvents(w);
    forall b | b in buffers
      ensures BufferRef(b) in heap.refs
    {
      SlotOfBuffer(w, b);
    }
    forall e | e in events
      ensures EventRef(e) in heap.refs
    {
      SlotOfEvent(w, e);
    }
    launch.KeepBuffers(heap, buffers);
    launch.KeepEvents(heap, events);
  }

  lemma SlotOfBuffer(w: Work, b: Buffer)
    requires b in WorkBuffers(w)
    ensures BufferRef(b) in WorkSlots(w)
  {
    hide WorkBuffers, WorkEvents;
    var k :| 0 <= k < |WorkBuffers(w)| && WorkBuffers(w)[k] == b;
    assert WorkSlots(w)[k] == BufferRef(b);
  }

  lemma SlotOfEvent(w: Work, e: Event)
    requires e in WorkEvents(w)
    ensures EventRef(e) in WorkSlots(w)
  {
    hide WorkBuffers, WorkEvents;
    var k :| 0 <= k < |WorkEvents(w)| && WorkEvents(w)[k] == e;
    assert WorkSlots(w)[|WorkBuffers(w)| + k] == EventRef(e);
  }

  /** The command for a dispatch node, binding by binding. */
  method EncodeDispatch(n: ExecNode) returns (c: Command)
    requires n.work.Dispatch?
    ensures [c] == Encode(n)
  {
    var d := n.work.dispatch;
    var bindings := [];
    for j := 0 to |d.buffers|
      invariant |bindings| == j && forall k :: 0 <= k < j ==> bindings[k] == Bound(d.buffers[k])
    {
      var buffer := d.buffers[j].buffer;
      bindings := bindings + [BoundBuffer(buffer.metal, MetalOffset(buffer, d.buffers[j].offset), d.buffers[j].index)];
    }
    assert bindings == BoundBuffers(d.buffers);
    c := Command(n.id, RunKernel(n.impl, bindings, d.scalars, d.grid, d.threads));
  }

  /** What a raw node puts into the open command buffer, or a backend refusal. */
  method EncodeRaw(n: ExecNode, i: nat, faults: set<LaunchFault>) returns (status: Status, commands: seq<Command>)
    requires !n.work.TensorGraph?
    ensures status == if RawFails(n.work, i, faults) then BackendError else Ok
    ensures status == Ok ==> commands == Encode(n)
  {
    commands := [];
    if n.work.Dispatch? || n.work.Copy? || n.work.Fill? || n.work.WorkspaceFill? {
      if Encoder(i) in faults {
        return BackendError, [];
      }
    }
    match n.work {
    case Dispatch(_) =>
      var c := EncodeDispatch(n);
      commands := [c];
    case Copy(c) =>
      commands := [Command(n.id, CopyBytes(c.src.metal, MetalOffset(c.src, c.srcOffset),
                                           c.dst.metal, MetalOffset(c.dst, c.dstOffset), c.byteCount))];
    case Fill(f) =>
      commands := [Command(n.id, FillBytes(f.dst.metal, MetalOffset(f.dst, f.dstOffset), f.byteCount, f.value))];
    case EventWait(e, v) => commands := [Command(n.id, WaitEvent(e, v))];
    case EventSignal(e, v) => commands := [Command(n.id, SignalEvent(e, v))];
    case WorkspaceFill(size, _, byte, dst, dstOffset) =>
      commands := [Command(n.id, FillWorkspace(n.offset, size, byte))];
      commands := commands + [Command(n.id, CopyFromWorkspace(n.offset, dst.metal, MetalOffset(dst, dstOffset), size))];
    case Barrier =>
    case Workspace(_, _) =>
    }
    return Ok, commands;
  }

  /** Commits open work ahead of a tensor graph and waits for it. */
  method Drain(launch: Launch, i: nat, open: seq<Command>, hasWork: bool, faults: set<LaunchFault>)
    returns (status: Status)
    requires hasWork == (open != []) && launch.impls == CommandBuffers(launch.log)
    modifies launch`impls, launch`log
    ensures status in {Ok, OutOfMemory, BackendError}
    ensures status == Ok <==> !DrainFails(Stream(old(launch.log), open), i, faults)
    ensures status == Ok ==> launch.impls == CommandBuffers(launch.log)
    ensures launch.log == if open != [] && CommittedTable(|old(launch.log)|) in faults
                          then old(launch.log) + [Segment(open, false)]
                          else Drained(Stream(old(launch.log), open)).committed
  {
    if !hasWork {
      return Ok;
    }
    ghost var before := launch.log;
    CommandBuffersSnoc(before, Segment(open, false));
    CommandBuffersSnoc(before, Segment(open, true));
    status := launch.CommitAndRetain(open, faults);
    if status != Ok {
      return;
    }
    launch.Wait();
    assert launch.log == before + [Segment(open, true)];
    if GpuError(i) in faults || NextCommandBuffer(i) in faults {
      return BackendError;
    }
  }

  /** A tensor graph: drain and wait for the raw work before it, then commit it on its own. */
  method EncodeTensor(
      heap: Heap, launch: Launch, n: ExecNode, i: nat, open: seq<Command>, hasWork: bool, faults: set<LaunchFault>)
    returns (status: Status, taken: bool)
    requires n.work.TensorGraph? && ImplOk(n) && hasWork == (open != [])
    requires CanTake(launch, heap, n.work) && launch.impls == CommandBuffers(launch.log)
    modifies launch`impls, launch`log, launch`retainedBufferCount, launch`retainedEventCount
    modifies launch.retainedBuffers, launch.retainedEvents, heap
    ensures taken ==> Took(launch, heap, n.work, old(launch.Buffers()), old(launch.Events()), old(heap.refs))
    ensures !taken ==> TookNothing(launch, heap, old(launch.Buffers()), old(launch.Events()), old(heap.refs))
    ensures status == Ok ==> taken && launch.impls == CommandBuffers(launch.log)
    ensures status == Ok ==> EncodeNext(Stream(old(launch.log), open), n) == Stream(launch.log, [])
    ensures launch.log == TensorLog(Stream(old(launch.log), open), n, i, faults)
    ensures status in {Ok, OutOfMemory, BackendError}
    ensures var before := Stream(old(launch.log), open);
      status == Ok <==> !DrainFails(before, i, faults) && !TensorFails(|Drained(before).committed|, i, faults)
  {
    hide WorkBuffers, WorkEvents, WorkRefs, WorkSlots, Encode, Drained;
    ghost var before := Stream(launch.log, open);
    taken := false;
    DrainsFirst(before, n);
    status := Drain(launch, i, open, hasWork, faults);
    if status != Ok {
      return;
    }
    var executable := n.impl;
    if !executable.Executable? {
      return BackendError, taken;
    }
    if TensorEncode(i) in faults {
      return BackendError, taken;
    }
    var command := TensorCommand(n);
    Take(heap, launch, n.work);
    taken := true;
    CommandBuffersSnoc(launch.log, Segment([command], false));
    status := launch.CommitAndRetain([command], faults);
    if status != Ok {
      return;
    }
    if AfterTensorCommandBuffer(i) in faults {
      return BackendError, taken;
    }
    return Ok, taken;
  }

  /** Draining comes first when a tensor graph is encoded. */
  lemma DrainsFirst(s: Stream, n: ExecNode)
    requires n.work.TensorGraph?
    ensures EncodeNext(s, n).committed == Drained(s).committed + [Segment(Encode(n), false)]
    ensures EncodeNext(s, n).open == []
  {
  }

  method TensorCommand(n: ExecNode) returns (c: Command)
    requires n.work.TensorGraph?
    ensures [c] == Encode(n)
  {
    c := Command(n.id, RunTensorGraph(n.impl, n.work.feeds, n.work.targets));
  }

  /** The launch has encoded and retained for the first `i` nodes. */
  ghost predicate EncodedUpTo(launch: Launch, heap: Heap, nodes: seq<ExecNode>, i: nat, open: seq<Command>)
    requires i <= |nodes|
    reads launch, launch.retainedBuffers, launch.retainedEvents, heap
  {
    && launch.Valid() && heap.Valid()
    && launch.retainedBuffers.Length == |AllBuffers(nodes)|
    && launch.retainedEvents.Length == |AllEvents(nodes)|
    && launch.Buffers() == AllBuffers(nodes[..i])
    && launch.Events() == AllEvents(nodes[..i])
    && EncodedStream(nodes[..i]) == Stream(launch.log, open)
    && launch.impls == CommandBuffers(launch.log)
  }

  // ---- one node of the second pass ----

  lemma RoomForNode(launch: Launch, heap: Heap, nodes: seq<ExecNode>, i: nat, refs: multiset<Ref>)
    requires i < |nodes| && launch.Valid() && heap.Valid()
    requires launch.retainedBuffers.Length == |AllBuffers(nodes)|
    requires launch.retainedEvents.Length == |AllEvents(nodes)|
    requires launch.Buffers() == AllBuffers(nodes[..i]) && launch.Events() == AllEvents(nodes[..i])
    requires WorksRefs(ExecWorks(nodes)) <= refs <= heap.refs
    ensures CanTake(launch, heap, nodes[i].work)
  {
    hide WorksRefs, AllBuffers, AllEvents, EncodedStream, WorkBuffers, WorkEvents, WorkSlots;
    PrefixFits(nodes, i);
    forall r | r in WorkSlots(nodes[i].work)
      ensures r in heap.refs
    {
      assert ExecWorks(nodes)[i] == nodes[i].work && r in WorkRefs(nodes[i].work);
      InWorksRefs(ExecWorks(nodes), r);
    }
  }

  lemma MayTake(launch: Launch, heap: Heap, nodes: seq<ExecNode>, i: nat, open: seq<Command>, refs: multiset<Ref>)
    requires i < |nodes| && EncodedUpTo(launch, heap, nodes, i, open)
    requires WorksRefs(ExecWorks(nodes)) <= refs <= heap.refs
    ensures CanTake(launch, heap, nodes[i].work)
  {
    hide WorksRefs, AllBuffers, AllEvents, EncodedStream, CanTake;
    RoomForNode(launch, heap, nodes, i, refs);
  }

  /** A launch that took a node's references has encoded one node more. */
  lemma TookOneMore(
      launch: Launch, heap: Heap, nodes: seq<ExecNode>, i: nat, refs: multiset<Ref>, before: Stream, open: seq<Command>)
    requires i < |nodes| && before == EncodedStream(nodes[..i])
    requires Took(launch, heap, nodes[i].work, AllBuffers(nodes[..i]), AllEvents(nodes[..i]), refs)
    requires launch.retainedBuffers.Length == |AllBuffers(nodes)|
    requires launch.retainedEvents.Length == |AllEvents(nodes)|
    requires EncodeNext(before, nodes[i]) == Stream(launch.log, open) && launch.impls == CommandBuffers(launch.log)
    ensures EncodedUpTo(launch, heap, nodes, i + 1, open)
  {
    hide AllBuffers, AllEvents, EncodedStream, EncodeNext, WorkBuffers, WorkEvents, WorkRefs;
    PrefixFits(nodes, i);
  }

  /** Taking references moves the heap and the launch's holdings together. */
  lemma TookKeepsBalance(
      launch: Launch, heap: Heap, w: Work, buffers: seq<Buffer>, events: seq<Event>, refs: multiset<Ref>)
    requires Took(launch, heap, w, buffers, events, refs)
    ensures heap.refs + HeldRefs(buffers, events) == refs + launch.Held()
  {
    hide WorkBuffers, WorkEvents, WorkRefs, HeldRefs;
    HoldMore(buffers, events, w);
  }

  lemma RawStep(s: Stream, n: ExecNode, commands: seq<Command>)
    requires !n.work.TensorGraph? && commands == Encode(n)
    ensures EncodeNext(s, n) == Stream(s.committed, s.open + commands)
  {
  }

  /** Whether a raw node leaves work in the open command buffer. */
  predicate EncodesNothing(w: Work) {
    w.Barrier? || w.Workspace?
  }

  lemma EncodesNothingIff(n: ExecNode)
    ensures EncodesNothing(n.work) <==> Encode(n) == []
  {
  }

  /** Encodes one raw node into the open command buffer. */
  method RawNodeStep(
      heap: Heap, launch: Launch, nodes: seq<ExecNode>, i: nat, open: seq<Command>, hasWork: bool,
      faults: set<LaunchFault>)
    returns (status: Status, open': seq<Command>, hasWork': bool)
    requires i < |nodes| && !nodes[i].work.TensorGraph? && hasWork == (open != [])
    requires EncodedUpTo(launch, heap, nodes, i, open) && CanTake(launch, heap, nodes[i].work)
    modifies launch`retainedBufferCount, launch`retainedEventCount
    modifies launch.retainedBuffers, launch.retainedEvents, heap
    ensures launch.Valid() && heap.Valid()
    ensures heap.refs + old(launch.Held()) == old(heap.refs) + launch.Held()
    ensures status == if RawFails(nodes[i].work, i, faults) then BackendError else Ok
    ensures status == Ok ==> EncodedUpTo(launch, heap, nodes, i + 1, open') && hasWork' == (open' != [])
  {
    hide AllBuffers, AllEvents, EncodedStream, EncodeNext, Encode, HeldRefs, WorkBuffers, WorkEvents, WorkRefs,
         WorkSlots;
    var n := nodes[i];
    open', hasWork' := open, hasWork;
    ghost var before, refs := (launch.Buffers(), launch.Events()), heap.refs;
    var commands;
    status, commands := EncodeRaw(n, i, faults);
    if status != Ok {
      return;
    }
    Take(heap, launch, n.work);
    RawStep(Stream(launch.log, open), n, commands);
    EncodesNothingIff(n);
    open' := open + commands;
    if !EncodesNothing(n.work) {
      hasWork' := true;
    }
    TookKeepsBalance(launch, heap, n.work, before.0, before.1, refs);
    TookOneMore(launch, heap, nodes, i, refs, Stream(launch.log, open), open');
  }

  /** Encodes one tensor graph into a command buffer of its own. */
  method TensorNodeStep(
      heap: Heap, launch: Launch, nodes: seq<ExecNode>, i: nat, open: seq<Command>, hasWork: bool,
      faults: set<LaunchFault>)
    returns (status: Status)
    requires i < |nodes| && nodes[i].work.TensorGraph? && ImplOk(nodes[i]) && hasWork == (open != [])
    requires EncodedUpTo(launch, heap, nodes, i, open) && CanTake(launch, heap, nodes[i].work)
    modifies launch`impls, launch`log, launch`retainedBufferCount, launch`retainedEventCount
    modifies launch.retainedBuffers, launch.retainedEvents, heap
    ensures launch.Valid() && heap.Valid()
    ensures heap.refs + old(launch.Held()) == old(heap.refs) + launch.Held()
    ensures status in {Ok, OutOfMemory, BackendError} && (status == Ok <==> !NodeFails(nodes, i, faults))
    ensures status == Ok ==> EncodedUpTo(launch, heap, nodes, i + 1, [])
    ensures launch.log == NodeLog(nodes, i, faults)
  {
    hide AllBuffers, AllEvents, EncodedStream, EncodeNext, Encode, HeldRefs, WorkBuffers, WorkEvents, WorkRefs,
         WorkSlots, DrainFails, TensorFails, Drained, TensorLog;
    ghost var before, refs, stream := (launch.Buffers(), launch.Events()), heap.refs, Stream(launch.log, open);
    PrefixFits(nodes, i);
    var taken;
    status, taken := EncodeTensor(heap, launch, nodes[i], i, open, hasWork, faults);
    if taken {
      TookKeepsBalance(launch, heap, nodes[i].work, before.0, before.1, refs);
    }
    if status == Ok {
      TookOneMore(launch, heap, nodes, i, refs, stream, []);
    }
  }

  // ---- the two paths ----

  lemma Cancel(after: multiset<Ref>, before: multiset<Ref>, held: multiset<Ref>, held': multiset<Ref>)
    requires after + held == (before + held) + held'
    ensures after == before + held'
  {
    forall r: Ref
      ensures after[r] == (before + held')[r]
    {
      assert (after + held)[r] == ((before + held) + held')[r];
    }
  }

  lemma StartOfLaunch(launch: Launch, heap: Heap, nodes: seq<ExecNode>)
    requires launch.Valid() && heap.Valid() && launch.Buffers() == [] && launch.Events() == []
    requires launch.impls == [] && launch.log == []
    requires launch.retainedBuffers.Length == |AllBuffers(nodes)|
    requires launch.retainedEvents.Length == |AllEvents(nodes)|
    ensures EncodedUpTo(launch, heap, nodes, 0, [])
    ensures launch.Held() == multiset{}
  {
    assert nodes[..0] == [];
    NothingHeld();
  }

  lemma EncodedSoFar(launch: Launch, heap: Heap, nodes: seq<ExecNode>, i: nat, open: seq<Command>)
    requires i <= |nodes| && EncodedUpTo(launch, heap, nodes, i, open)
    ensures launch.Valid() && heap.Valid() && launch.impls == CommandBuffers(launch.log)
    ensures EncodedStream(nodes[..i]) == Stream(launch.log, open)
    ensures i == |nodes| ==>
              && launch.Buffers() == AllBuffers(nodes) && launch.Events() == AllEvents(nodes)
              && Segments(nodes)
                   == if open != [] || nodes == [] then launch.log + [Segment(open, false)] else launch.log
  {
    hide AllBuffers, AllEvents, EncodedStream;
    assert nodes[..|nodes|] == nodes;
  }

  lemma PartOfSegments(log: seq<Segment>, nodes: seq<ExecNode>, i: nat)
    requires i <= |nodes| && IsPartOf(log, EncodedStream(nodes[..i]).committed)
    ensures IsPartOf(log, Segments(nodes))
  {
    hide EncodedStream, Segments;
    CommittedGrows(nodes, i);
  }

  /** One node of the second pass, with the counts tied to those at its start. */
  method NodeStep(
      heap: Heap, launch: Launch, nodes: seq<ExecNode>, i: nat, open: seq<Command>, hasWork: bool,
      faults: set<LaunchFault>, ghost refs: multiset<Ref>)
    returns (status: Status, open': seq<Command>, hasWork': bool)
    requires i < |nodes| && ImplOk(nodes[i]) && hasWork == (open != [])
    requires launch.Valid() && heap.refs == refs + launch.Held() && WorksRefs(ExecWorks(nodes)) <= refs
    requires EncodedUpTo(launch, heap, nodes, i, open)
    modifies launch`impls, launch`log, launch`retainedBufferCount, launch`retainedEventCount
    modifies launch.retainedBuffers, launch.retainedEvents, heap
    ensures launch.Valid() && heap.Valid() && heap.refs == refs + launch.Held()
    ensures status in {Ok, OutOfMemory, BackendError} && (status == Ok <==> !NodeFails(nodes, i, faults))
    ensures status == Ok ==> EncodedUpTo(launch, heap, nodes, i + 1, open') && hasWork' == (open' != [])
    ensures launch.log == NodeLog(nodes, i, faults)
  {
    hide EncodedUpTo, EncodedStream, WorksRefs, ExecWorks, ImplOk, AllBuffers, AllEvents, Segments, HeldRefs,
         CanTake, NodeFails, TensorLog, CommandBuffers, Launch.Buffers, Launch.Events, Launch.Held, RawFails;
    MayTake(launch, heap, nodes, i, open, refs);
    EncodedSoFar(launch, heap, nodes, i, open);
    ghost var held := launch.Held();
    open', hasWork' := [], false;
    if nodes[i].work.TensorGraph? {
      status := TensorNodeStep(heap, launch, nodes, i, open, hasWork, faults);
    } else {
      RawNodeFails(nodes, i, faults);
      status, open', hasWork' := RawNodeStep(heap, launch, nodes, i, open, hasWork, faults);
    }
    Cancel(heap.refs, refs, held, launch.Held());
  }

  /** Second pass of a direct launch: encodes node after node, retaining what each refers to. */
  method EncodeDirect(nodes: seq<ExecNode>, heap: Heap, launch: Launch, faults: set<LaunchFault>)
    returns (status: Status)
    requires forall i :: 0 <= i < |nodes| ==> ImplOk(nodes[i])
    requires WorksRefs(ExecWorks(nodes)) <= heap.refs
    requires EncodedUpTo(launch, heap, nodes, 0, []) && launch.Valid() && launch.Held() == multiset{}
    modifies launch`impls, launch`log, launch`retainedBufferCount, launch`retainedEventCount
    modifies launch.retainedBuffers, launch.retainedEvents, heap
    ensures launch.Valid() && heap.Valid() && heap.refs == old(heap.refs) + launch.Held()
    ensures status in {Ok, OutOfMemory, BackendError} && (status == Ok <==> !DirectFails(nodes, faults))
    ensures status == Ok ==>
              && launch.log == Segments(nodes) && launch.impls == CommandBuffers(launch.log)
              && launch.Buffers() == AllBuffers(nodes) && launch.Events() == AllEvents(nodes)
    ensures launch.log == DirectLog(nodes, faults)
  {
    hide EncodedUpTo, EncodedStream, WorksRefs, ExecWorks, ImplOk, AllBuffers, AllEvents, Segments, HeldRefs,
         NodeFails, NodeLog, DirectLog, CommandBuffers, Launch.Buffers, Launch.Events, Launch.Held, DirectFails,
         NoNodeFails;
    var open := [];
    var hasWork := |nodes| == 0;
    NoNodeFailsYet(nodes, faults);
    for i := 0 to |nodes|
      invariant launch.Valid() && EncodedUpTo(launch, heap, nodes, i, open)
      invariant hasWork == (open != [] || nodes == [])
      invariant heap.refs == old(heap.refs) + launch.Held()
      invariant NoNodeFails(nodes, i, faults)
    {
      status, open, hasWork := NodeStep(heap, launch, nodes, i, open, hasWork, faults, old(heap.refs));
      OneNodeMore(nodes, i, faults);
      if status != Ok {
        return;
      }
    }
    EncodedSoFar(launch, heap, nodes, |nodes|, open);
    assert nodes[..|nodes|] == nodes;
    RestDecides(nodes, faults);
    status := CommitRest(launch, nodes, open, hasWork, faults);
  }

  predicate NoNodeFails(nodes: seq<ExecNode>, i: nat, faults: set<LaunchFault>)
    requires i <= |nodes|
  {
    forall k :: 0 <= k < i ==> !NodeFails(nodes, k, faults)
  }

  lemma NoNodeFailsYet(nodes: seq<ExecNode>, faults: set<LaunchFault>)
    ensures NoNodeFails(nodes, 0, faults)
  {
  }

  lemma OneNodeMore(nodes: seq<ExecNode>, i: nat, faults: set<LaunchFault>)
    requires i < |nodes| && NoNodeFails(nodes, i, faults)
    ensures NodeFails(nodes, i, faults) ==>
              DirectFails(nodes, faults) && DirectLog(nodes, faults) == NodeLog(nodes, i, faults)
    ensures !NodeFails(nodes, i, faults) ==> NoNodeFails(nodes, i + 1, faults)
  {
    hide NodeFails, NodeLog;
    var k := FirstFailing(nodes, 0, faults);
  }

  /** Once no node failed, the last commit decides. */
  lemma RestDecides(nodes: seq<ExecNode>, faults: set<LaunchFault>)
    requires NoNodeFails(nodes, |nodes|, faults)
    ensures var s := EncodedStream(nodes);
      DirectFails(nodes, faults) <==> (s.open != [] || nodes == []) && CommittedTable(|s.committed|) in faults
    ensures DirectLog(nodes, faults) == Segments(nodes)
  {
    hide NodeFails, EncodedStream, Segments;
    var k := FirstFailing(nodes, 0, faults);
  }

  lemma RawNodeFails(nodes: seq<ExecNode>, i: nat, faults: set<LaunchFault>)
    requires i < |nodes| && !nodes[i].work.TensorGraph?
    ensures NodeFails(nodes, i, faults) <==> RawFails(nodes[i].work, i, faults)
  {
    hide EncodedStream;
  }

  /** Commits what is still open once all nodes were encoded. */
  method CommitRest(launch: Launch, nodes: seq<ExecNode>, open: seq<Command>, hasWork: bool, faults: set<LaunchFault>)
    returns (status: Status)
    requires hasWork == (open != [] || nodes == []) && launch.impls == CommandBuffers(launch.log)
    requires EncodedStream(nodes) == Stream(launch.log, open)
    modifies launch`impls, launch`log
    ensures status == if hasWork && CommittedTable(|old(launch.log)|) in faults then OutOfMemory else Ok
    ensures status == Ok ==> launch.impls == CommandBuffers(launch.log)
    ensures launch.log == Segments(nodes)
  {
    hide EncodedStream, CommandBuffers;
    if hasWork {
      CommandBuffersSnoc(launch.log, Segment(open, false));
      status := launch.CommitAndRetain(open, faults);
      return;
    }
    return Ok;
  }

  /** Once the recording is encoded: retains the buffers of its dispatches. */
  method RetainRecorded(nodes: seq<ExecNode>, heap: Heap, launch: Launch, faults: set<LaunchFault>)
    returns (status: Status)
    requires forall i :: 0 <= i < |nodes| ==> nodes[i].work.Dispatch?
    requires WorksRefs(ExecWorks(nodes)) <= heap.refs
    requires EncodedUpTo(launch, heap, nodes, 0, []) && launch.Valid() && launch.Held() == multiset{}
    modifies launch`retainedBufferCount, launch`retainedEventCount
    modifies launch.retainedBuffers, launch.retainedEvents, heap
    ensures launch.Valid() && heap.Valid() && heap.refs == old(heap.refs) + launch.Held()
    ensures status == if IcbEncoder in faults then BackendError else Ok
    ensures status == Ok ==>
              && launch.Buffers() == AllBuffers(nodes) && launch.Events() == AllEvents(nodes)
  {
    hide EncodedStream, WorksRefs, ExecWorks, AllBuffers, AllEvents, HeldRefs, WorkRefs, WorkBuffers, WorkEvents,
         WorkSlots, CanTake, CommandBuffers;
    if IcbEncoder in faults {
      return BackendError;
    }
    NothingYet(nodes);
    for i := 0 to |nodes|
      invariant launch.Valid() && heap.Valid()
      invariant launch.retainedBuffers.Length == |AllBuffers(nodes)|
      invariant launch.retainedEvents.Length == |AllEvents(nodes)|
      invariant launch.Buffers() == AllBuffers(nodes[..i]) && launch.Events() == AllEvents(nodes[..i])
      invariant heap.refs == old(heap.refs) + launch.Held()
    {
      RoomForNode(launch, heap, nodes, i, old(heap.refs));
      PrefixFits(nodes, i);
      ghost var before, refs := (launch.Buffers(), launch.Events()), heap.refs;
      Take(heap, launch, nodes[i].work);
      TookKeepsBalance(launch, heap, nodes[i].work, before.0, before.1, refs);
      Cancel(heap.refs, old(heap.refs), HeldRefs(before.0, before.1), launch.Held());
    }
    assert nodes[..|nodes|] == nodes;
    return Ok;
  }

  lemma NothingYet(nodes: seq<ExecNode>)
    ensures nodes[..0] == [] && AllBuffers([]) == [] && AllEvents([]) == []
  {
  }

  // ---- launch ----

  lemma RecordingIsOfDispatches(s: ExecState)
    requires ExecOk(s) && UsesIcb(s.icb)
    ensures s.icb.commands.Some? && forall i :: 0 <= i < |s.nodes| ==> s.nodes[i].work.Dispatch?
  {
  }

  /** How the counters are set before encoding begins: a fallback is counted unless the recording will be replayed. */
  method BeginIcb(exec: GraphExec)
    modifies exec`icb
    ensures exec.icb == BegunIcb(old(exec.icb))
    ensures exec.icb.planned > 0 ==>
              && exec.icb.used == 0
              && (exec.icb.fallback == 0 <==> UsesIcb(old(exec.icb)))
              && (exec.icb.fallback > 0 ==> exec.icb.fallback == exec.icb.planned && exec.icb.reason != NoFallback)
    ensures exec.icb.planned == 0 ==> exec.icb == old(exec.icb)
  {
    if exec.icb.planned > 0 {
      exec.icb := exec.icb.(used := 0, fallback := 0);
      if UseIcb !in exec.icb.enabled {
        exec.icb := exec.icb.(fallback := exec.icb.planned, reason := Disabled);
      } else if exec.icb.commands.None? {
        exec.icb := exec.icb.(fallback := exec.icb.planned);
        if exec.icb.reason == NoFallback {
          exec.icb := exec.icb.(reason := IcbUnsupported);
        }
      }
    }
  }

  /** What a returned launch looks like. */
  ghost predicate Launched(launch: Launch, exec: GraphExec, s: ExecState)
    reads launch, launch.retainedBuffers, launch.retainedEvents
  {
    && launch.Valid() && launch.exec == exec && !launch.completed
    && launch.log == LaunchSegments(s) && launch.impls == CommandBuffers(launch.log)
    && launch.Buffers() == AllBuffers(s.nodes) && launch.retainedBufferCount == launch.retainedBuffers.Length
    && launch.Events() == AllEvents(s.nodes) && launch.retainedEventCount == launch.retainedEvents.Length
  }

  /**
   Launches an exec, which succeeds exactly when every request it makes is met. Success commits the
   exec's segments, keeps all of them and leaves the tables exactly full, one reference per slot of the
   exec's nodes. A failure gives back whatever it had retained; what it had committed by then stays with
   the GPU, and is told by the exec and by what was refused.
   */
  method LaunchExec(exec: GraphExec, heap: Heap, faults: set<LaunchFault>)
    returns (status: Status, launch: Launch?, ghost failed: Failed)
    requires heap.Valid() && ExecOk(exec.State()) && ExecRefs(exec.State()) <= heap.refs
    modifies exec`icb, exec`inFlight, heap
    ensures heap.Valid() && status in {Ok, OutOfMemory, BackendError}
    ensures status == Ok <==> !LaunchFails(old(exec.State()), faults)
    ensures status == Ok ==>
              && launch != null && fresh(launch)
              && Launched(launch, exec, old(exec.State()))
              && exec.State() == AfterLaunch(old(exec.State()))
              && launch.Held() == WorksRefs(ExecWorks(old(exec.nodes)))
              && heap.refs == old(heap.refs) + launch.Held()
    ensures status != Ok ==>
              && launch == null && heap.refs == old(heap.refs)
              && failed == FailureOf(old(exec.State()), faults)
              && exec.State() == AfterFailedLaunch(old(exec.State()), failed.point)
  {
    hide ExecOk, ExecRefs, WorksRefs, ExecWorks, AllBuffers, AllEvents, LaunchSegments, HeldRefs, LaunchedIcb,
         BegunIcb, Heap.Valid, UsesIcb, TablesFail, EncodingFails, EncodingLog, EncodingPoint, CommandBuffers,
         Launch.Buffers, Launch.Events, Launch.Held;
    launch, failed := null, Failed(BeforeCounters, []);
    TablesNeeded(exec.nodes, faults);
    if FirstCommandBuffer in faults {
      return BackendError, launch, failed;
    }
    if NewLaunch in faults {
      return OutOfMemory, launch, failed;
    }
    var buffers, events := CountSlots(exec.nodes);
    if buffers > 0 && BufferTable in faults {
      return OutOfMemory, launch, failed;
    }
    if events > 0 && EventTable in faults {
      return OutOfMemory, launch, failed;
    }
    var made := new Launch(buffers, events);
    ghost var point;
    status, point := EncodeOrGiveBack(exec, heap, made, faults);
    if status != Ok {
      failed := Failed(point, made.log);
      return;
    }
    exec.inFlight := exec.inFlight + 1;
    made.exec := exec;
    launch := made;
  }

  /** Encodes into a new launch; when that fails, the launch is destroyed. */
  method EncodeOrGiveBack(exec: GraphExec, heap: Heap, launch: Launch, faults: set<LaunchFault>)
    returns (status: Status, ghost point: FailurePoint)
    requires heap.Valid() && ExecOk(exec.State()) && ExecRefs(exec.State()) <= heap.refs
    requires launch.Valid() && launch.Buffers() == [] && launch.Events() == [] && launch.impls == [] && launch.log == []
    requires launch.retainedBuffers.Length == |AllBuffers(exec.nodes)|
    requires launch.retainedEvents.Length == |AllEvents(exec.nodes)|
    modifies exec`icb, launch`impls, launch`log, launch`retainedBufferCount, launch`retainedEventCount
    modifies launch.retainedBuffers, launch.retainedEvents, heap
    ensures heap.Valid() && launch.Valid()
    ensures status in {Ok, OutOfMemory, BackendError} && !point.BeforeCounters?
    ensures status == Ok <==> !EncodingFails(old(exec.State()), faults)
    ensures status == Ok ==>
              && launch.log == LaunchSegments(old(exec.State())) && launch.impls == CommandBuffers(launch.log)
              && launch.Buffers() == AllBuffers(exec.nodes) && launch.Events() == AllEvents(exec.nodes)
              && launch.retainedBufferCount == launch.retainedBuffers.Length
              && launch.retainedEventCount == launch.retainedEvents.Length
              && launch.Held() == WorksRefs(ExecWorks(exec.nodes)) && heap.refs == old(heap.refs) + launch.Held()
              && exec.icb == LaunchedIcb(old(exec.icb))
    ensures status != Ok ==> exec.icb == LeftIcb(old(exec.icb), point) && heap.refs == old(heap.refs)
    ensures point == EncodingPoint(old(exec.State()), faults) && launch.log == EncodingLog(old(exec.State()), faults)
  {
    hide ExecOk, ExecRefs, WorksRefs, ExecWorks, AllBuffers, AllEvents, LaunchSegments, HeldRefs, LaunchedIcb,
         LeftIcb, EncodingFails, EncodingLog, EncodingPoint, CommandBuffers;
    status, point := EncodeLaunch(exec, heap, launch, faults);
    if status != Ok {
      launch.Destroy(heap);
      return;
    }
    HeldIsNodesRefs(exec.nodes);
  }

  lemma TablesNeeded(nodes: seq<ExecNode>, faults: set<LaunchFault>)
    ensures TablesFail(nodes, faults)
       <==> (|AllBuffers(nodes)| > 0 && BufferTable in faults) || (|AllEvents(nodes)| > 0 && EventTable in faults)
  {
    hide AllBuffers, AllEvents;
  }

  /** The ICB once a replay was encoded. */
  function Replayed(icb: Icb): Icb {
    icb.(used := icb.planned, fallback := 0, reason := NoFallback)
  }

  lemma IcbPaths(icb: Icb)
    ensures UsesIcb(icb) ==> BegunIcb(icb).commands == icb.commands && LaunchedIcb(icb) == Replayed(BegunIcb(icb))
    ensures !UsesIcb(icb) ==> LaunchedIcb(icb) == BegunIcb(icb)
  {
  }

  lemma OneCommandBuffer(commands: seq<Command>)
    ensures CommandBuffers([Segment(commands, false)]) == [commands]
  {
  }

  /** Launches by executing the recording. */
  method EncodeReplay(exec: GraphExec, heap: Heap, launch: Launch, faults: set<LaunchFault>)
    returns (status: Status, ghost replayed: bool)
    requires exec.icb.commands.Some?
    requires forall i :: 0 <= i < |exec.nodes| ==> exec.nodes[i].work.Dispatch?
    requires WorksRefs(ExecWorks(exec.nodes)) <= heap.refs
    requires EncodedUpTo(launch, heap, exec.nodes, 0, []) && launch.Valid() && launch.Held() == multiset{}
    requires launch.impls == [] && launch.log == []
    modifies exec`icb, launch`impls, launch`log, launch`retainedBufferCount, launch`retainedEventCount
    modifies launch.retainedBuffers, launch.retainedEvents, heap
    ensures launch.Valid() && heap.Valid() && heap.refs == old(heap.refs) + launch.Held()
    ensures status in {Ok, OutOfMemory, BackendError}
    ensures status == Ok <==> IcbEncoder !in faults && CommittedTable(0) !in faults
    ensures status == Ok ==>
              && replayed && launch.impls == CommandBuffers(launch.log)
              && launch.Buffers() == AllBuffers(exec.nodes) && launch.Events() == AllEvents(exec.nodes)
    ensures exec.icb == if replayed then Replayed(old(exec.icb)) else old(exec.icb)
    ensures launch.log == if replayed then [Segment(old(exec.icb).commands.value, false)] else []
    ensures replayed <==> IcbEncoder !in faults
  {
    hide EncodedUpTo, WorksRefs, ExecWorks, AllBuffers, AllEvents, HeldRefs, CommandBuffers, Launch.Buffers,
         Launch.Events, Launch.Held;
    replayed := false;
    status := RetainRecorded(exec.nodes, heap, launch, faults);
    if status != Ok {
      return;
    }
    var commands := exec.icb.commands.value;
    exec.icb := exec.icb.(used := exec.icb.planned, fallback := 0, reason := NoFallback);
    replayed := true;
    OneCommandBuffer(commands);
    status := launch.CommitAndRetain(commands, faults);
    assert launch.log == [Segment(commands, false)];
  }

  /** Sets the counters, picks a path, and encodes. */
  method EncodeLaunch(exec: GraphExec, heap: Heap, launch: Launch, faults: set<LaunchFault>)
    returns (status: Status, ghost point: FailurePoint)
    requires heap.Valid() && ExecOk(exec.State()) && ExecRefs(exec.State()) <= heap.refs
    requires launch.Valid() && launch.Buffers() == [] && launch.Events() == [] && launch.impls == [] && launch.log == []
    requires launch.retainedBuffers.Length == |AllBuffers(exec.nodes)|
    requires launch.retainedEvents.Length == |AllEvents(exec.nodes)|
    modifies exec`icb, launch`impls, launch`log, launch`retainedBufferCount, launch`retainedEventCount
    modifies launch.retainedBuffers, launch.retainedEvents, heap
    ensures launch.Valid() && heap.Valid() && heap.refs == old(heap.refs) + launch.Held()
    ensures status in {Ok, OutOfMemory, BackendError} && !point.BeforeCounters?
    ensures status == Ok <==> !EncodingFails(old(exec.State()), faults)
    ensures status == Ok ==>
              && launch.log == LaunchSegments(old(exec.State())) && launch.impls == CommandBuffers(launch.log)
              && launch.Buffers() == AllBuffers(exec.nodes) && launch.Events() == AllEvents(exec.nodes)
              && exec.icb == LaunchedIcb(old(exec.icb))
    ensures status != Ok ==> exec.icb == LeftIcb(old(exec.icb), point)
    ensures point == EncodingPoint(old(exec.State()), faults) && launch.log == EncodingLog(old(exec.State()), faults)
  {
    hide ExecRefs, WorksRefs, ExecWorks, AllBuffers, AllEvents, Segments, HeldRefs, EncodedUpTo, ExecOk,
         DirectFails, DirectLog, CommandBuffers, BegunIcb, LaunchedIcb, UsesIcb, Replayed, Launch.Buffers,
         Launch.Events, Launch.Held, ImplOk, IcbOk;
    StartOfLaunch(launch, heap, exec.nodes);
    NodesAreLive(exec.State(), heap.refs);
    ImplsAreOk(exec.State());
    IcbPaths(exec.icb);
    var useIcb := UsesIcb(exec.icb);
    BeginIcb(exec);
    point := WhileEncoding;
    if useIcb {
      RecordingIsOfDispatches(old(exec.State()));
      ghost var replayed;
      status, replayed := EncodeReplay(exec, heap, launch, faults);
      point := if replayed then AfterReplay else WhileEncoding;
    } else {
      status := EncodeDirect(exec.nodes, heap, launch, faults);
    }
  }

  lemma NodesAreLive(s: ExecState, refs: multiset<Ref>)
    requires ExecRefs(s) <= refs
    ensures WorksRefs(ExecWorks(s.nodes)) <= refs
  {
  }

  lemma ImplsAreOk(s: ExecState)
    requires ExecOk(s)
    ensures forall i :: 0 <= i < |s.nodes| ==> ImplOk(s.nodes[i])
  {
    hide SliceOk, PlanOk, IcbOk, ImplOk;
    forall i | 0 <= i < |s.nodes|
      ensures ImplOk(s.nodes[i])
    {
      assert NodeOk(s.nodes[i]);
    }
  }
}
