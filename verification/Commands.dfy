/**
 What an instantiated node puts into a command buffer, and how a launch cuts the stream of commands
 into committed segments.
 */
module Commands {
  import opened Prelude
  import opened Model

  /** The backend object an instantiated node runs with. */
  datatype Impl = NoImpl | Pipeline(metallib: string, kernel: string) | Executable(package: string)

  /** A node of an executable graph; `offset` is its workspace slice, zero for other kinds. */
  datatype ExecNode = ExecNode(id: NodeId, flags: set<PatchFlag>, work: Work, impl: Impl, offset: nat)

  datatype BoundBuffer = BoundBuffer(metal: Metal, offset: Size, index: nat)

  datatype Op =
    | RunKernel(pipeline: Impl, bindings: seq<BoundBuffer>, scalars: seq<Scalar>, grid: Dims, threads: Dims)
    | CopyBytes(src: Metal, srcOffset: Size, dst: Metal, dstOffset: Size, byteCount: Size)
    | FillBytes(metal: Metal, offset: Size, byteCount: Size, value: nat)
    | WaitEvent(event: Event, value: nat)
    | SignalEvent(event: Event, value: nat)
    | RunTensorGraph(executable: Impl, feeds: seq<Tensor>, targets: seq<Tensor>)
    | FillWorkspace(wsOffset: nat, size: Size, byte: nat)
    | CopyFromWorkspace(wsOffset: nat, to: Metal, toOffset: Size, size: Size)

  /** An encoded command and the node it comes from. */
  datatype Command = Command(node: NodeId, op: Op)

  /** A committed command buffer; `waited` means the host blocked on it before encoding any more. */
  datatype Segment = Segment(commands: seq<Command>, waited: bool)

  /** Absolute offset of a wrapper-relative one, in `size_t` arithmetic. */
  function MetalOffset(b: Buffer, offset: Size): Size {
    WrapAdd(b.byteOffset, offset)
  }

  function Bound(b: Binding): BoundBuffer {
    BoundBuffer(b.buffer.metal, MetalOffset(b.buffer, b.offset), b.index)
  }

  function BoundBuffers(bindings: seq<Binding>): (r: seq<BoundBuffer>)
    ensures |r| == |bindings|
  {
    seq(|bindings|, i requires 0 <= i < |bindings| => Bound(bindings[i]))
  }

  /** The commands of one node, encoded directly. */
  function Encode(n: ExecNode): seq<Command> {
    match n.work
    case Dispatch(d) =>
      [Command(n.id, RunKernel(n.impl, BoundBuffers(d.buffers), d.scalars, d.grid, d.threads))]
    case Copy(c) =>
      [Command(n.id, CopyBytes(c.src.metal, MetalOffset(c.src, c.srcOffset),
                               c.dst.metal, MetalOffset(c.dst, c.dstOffset), c.byteCount))]
    case Fill(f) =>
      [Command(n.id, FillBytes(f.dst.metal, MetalOffset(f.dst, f.dstOffset), f.byteCount, f.value))]
    case EventWait(e, v) => [Command(n.id, WaitEvent(e, v))]
    case EventSignal(e, v) => [Command(n.id, SignalEvent(e, v))]
    case Barrier => []
    case TensorGraph(_, feeds, targets) => [Command(n.id, RunTensorGraph(n.impl, feeds, targets))]
    case Workspace(_, _) => []
    case WorkspaceFill(size, _, byte, dst, dstOffset) =>
      [Command(n.id, FillWorkspace(n.offset, size, byte)),
       Command(n.id, CopyFromWorkspace(n.offset, dst.metal, MetalOffset(dst, dstOffset), size))]
  }

  /** All commands, node after node. */
  function EncodeAll(nodes: seq<ExecNode>): seq<Command> {
    if |nodes| == 0 then [] else EncodeAll(nodes[..|nodes| - 1]) + Encode(nodes[|nodes| - 1])
  }

  // ---- segmentation ----

  /** A launch in progress: what has been committed and what the open command buffer holds. */
  datatype Stream = Stream(committed: seq<Segment>, open: seq<Command>)

  function CommitOpen(s: Stream, waited: bool): Stream {
    Stream(s.committed + [Segment(s.open, waited)], [])
  }

  /** The open work committed and waited on, if there is any. */
  function Drained(s: Stream): Stream {
    if s.open != [] then CommitOpen(s, true) else s
  }

  /** A tensor graph gets a command buffer of its own, after the raw work before it was waited on. */
  function EncodeNext(s: Stream, n: ExecNode): Stream {
    if n.work.TensorGraph? then
      CommitOpen(Drained(s).(open := Encode(n)), false)
    else s.(open := s.open + Encode(n))
  }

  function EncodedStream(nodes: seq<ExecNode>): Stream {
    if |nodes| == 0 then Stream([], [])
    else EncodeNext(EncodedStream(nodes[..|nodes| - 1]), nodes[|nodes| - 1])
  }

  /** The command buffers a successful direct launch commits. */
  function Segments(nodes: seq<ExecNode>): seq<Segment> {
    var s := EncodedStream(nodes);
    if s.open != [] || |nodes| == 0 then CommitOpen(s, false).committed else s.committed
  }

  /** The committed commands in order. */
  function Flatten(segments: seq<Segment>): seq<Command> {
    if |segments| == 0 then []
    else Flatten(segments[..|segments| - 1]) + segments[|segments| - 1].commands
  }

  predicate IsTensorCommand(c: Command) {
    c.op.RunTensorGraph?
  }

  predicate IsRaw(commands: seq<Command>) {
    forall i :: 0 <= i < |commands| ==> !IsTensorCommand(commands[i])
  }

  /**
   Segments are either one tensor graph alone or raw work only, and whatever raw work precedes a
   tensor graph was committed and waited on first.
   */
  ghost predicate WellSegmented(segments: seq<Segment>) {
    && (forall k :: 0 <= k < |segments| ==> IsRaw(segments[k].commands) || |segments[k].commands| == 1)
    && (forall j, k :: 0 <= j < k < |segments| && !IsRaw(segments[k].commands) && IsRaw(segments[j].commands)
          ==> segments[j].waited)
  }

  lemma FlattenSnoc(segments: seq<Segment>, s: Segment)
    ensures Flatten(segments + [s]) == Flatten(segments) + s.commands
  {
    assert (segments + [s])[..|segments|] == segments;
  }

  lemma EncodeIsRaw(n: ExecNode)
    ensures !n.work.TensorGraph? ==> IsRaw(Encode(n))
    ensures n.work.TensorGraph? ==> |Encode(n)| == 1 && !IsRaw(Encode(n))
  {
    if n.work.TensorGraph? {
      assert IsTensorCommand(Encode(n)[0]);
    }
  }

  /** Between nodes: nothing lost, nothing reordered, and every raw segment so far was waited on. */
  ghost predicate StreamOk(s: Stream, nodes: seq<ExecNode>) {
    && Flatten(s.committed) + s.open == EncodeAll(nodes)
    && IsRaw(s.open)
    && WellSegmented(s.committed)
    && RawWaited(s.committed)
    && (forall k :: 0 <= k < |s.committed| ==> s.committed[k].commands != [])
  }

  /** Everything committed so far was waited on, as far as it is raw. */
  ghost predicate RawWaited(segments: seq<Segment>) {
    forall k :: 0 <= k < |segments| && IsRaw(segments[k].commands) ==> segments[k].waited
  }

  lemma CommitKeepsSegmented(segments: seq<Segment>, s: Segment)
    requires WellSegmented(segments) && RawWaited(segments)
    requires IsRaw(s.commands) || |s.commands| == 1
    ensures WellSegmented(segments + [s])
    ensures IsRaw(s.commands) ==> s.waited ==> RawWaited(segments + [s])
    ensures !IsRaw(s.commands) ==> RawWaited(segments + [s])
  {
    hide IsRaw;
    assert forall k :: 0 <= k < |segments| ==> (segments + [s])[k] == segments[k];
  }

  lemma DrainKeeps(s: Stream, nodes: seq<ExecNode>)
    requires StreamOk(s, nodes)
    ensures StreamOk(Drained(s), nodes) && Drained(s).open == []
  {
    hide WellSegmented, RawWaited, Flatten, EncodeAll;
    if s.open != [] {
      FlattenSnoc(s.committed, Segment(s.open, true));
      CommitKeepsSegmented(s.committed, Segment(s.open, true));
    }
  }

  lemma TensorStepKeeps(s: Stream, nodes: seq<ExecNode>, n: ExecNode)
    requires StreamOk(s, nodes) && n.work.TensorGraph? && s.open == []
    ensures StreamOk(CommitOpen(s.(open := Encode(n)), false), nodes + [n])
  {
    hide WellSegmented, RawWaited, Flatten, Encode, IsRaw;
    FlattenSnoc(s.committed, Segment(Encode(n), false));
    EncodeIsRaw(n);
    CommitKeepsSegmented(s.committed, Segment(Encode(n), false));
    assert (nodes + [n])[..|nodes|] == nodes;
    NothingIsRaw();
  }

  lemma NothingIsRaw()
    ensures IsRaw([])
  {
  }

  lemma StepKeeps(s: Stream, nodes: seq<ExecNode>, n: ExecNode)
    requires StreamOk(s, nodes)
    ensures StreamOk(EncodeNext(s, n), nodes + [n])
  {
    hide WellSegmented;
    assert (nodes + [n])[..|nodes|] == nodes;
    EncodeIsRaw(n);
    if n.work.TensorGraph? {
      hide *;
      DrainKeeps(s, nodes);
      StepOfTensor(s, nodes, n);
    } else {
      assert Flatten(s.committed) + (s.open + Encode(n)) == (Flatten(s.committed) + s.open) + Encode(n);
    }
  }

  lemma StepOfTensor(s: Stream, nodes: seq<ExecNode>, n: ExecNode)
    requires n.work.TensorGraph?
    requires StreamOk(Drained(s), nodes) && Drained(s).open == []
    ensures StreamOk(EncodeNext(s, n), nodes + [n])
  {
    hide StreamOk;
    TensorStepKeeps(Drained(s), nodes, n);
  }

  lemma {:induction false} StreamIsOk(nodes: seq<ExecNode>)
    ensures StreamOk(EncodedStream(nodes), nodes)
  {
    if |nodes| > 0 {
      var rest, last := nodes[..|nodes| - 1], nodes[|nodes| - 1];
      StreamIsOk(rest);
      StepKeeps(EncodedStream(rest), rest, last);
      assert rest + [last] == nodes;
    }
  }

  /**
   Cutting a launch into command buffers preserves its meaning: the committed commands are exactly
   the nodes' commands in order, tensor graphs stand alone, and raw work before one was waited on.
   */
  lemma SegmentationPreservesMeaning(nodes: seq<ExecNode>)
    ensures Flatten(Segments(nodes)) == EncodeAll(nodes)
    ensures WellSegmented(Segments(nodes))
  {
    hide EncodeAll, EncodedStream, Encode;
    StreamIsOk(nodes);
    var s := EncodedStream(nodes);
    FlattenSnoc(s.committed, Segment(s.open, false));
  }

  /**
   The cut is as coarse as it can be: raw work is broken only where a tensor graph follows, the host waits
   exactly there, and no command buffer is empty unless it is the only one.
   */
  ghost predicate CutOnlyAtTensors(segments: seq<Segment>) {
    && (forall k :: 0 <= k < |segments| ==>
          (segments[k].waited <==> IsRaw(segments[k].commands) && k + 1 < |segments|))
    && (forall k :: 0 < k < |segments| ==> !IsRaw(segments[k - 1].commands) || !IsRaw(segments[k].commands))
    && (forall k :: 0 <= k < |segments| && |segments| > 1 ==> segments[k].commands != [])
  }

  /** Between nodes, what is committed ends with a tensor graph, if there is anything. */
  ghost predicate EndsInTensor(segments: seq<Segment>) {
    && CutOnlyAtTensors(segments)
    && (segments != [] ==> !IsRaw(segments[|segments| - 1].commands))
  }

  lemma CutSnoc(segments: seq<Segment>, raw: seq<Command>, tensor: seq<Command>)
    requires EndsInTensor(segments) && IsRaw(raw) && raw != []
    ensures CutOnlyAtTensors(segments + [Segment(raw, false)])
    ensures !IsRaw(tensor) ==> EndsInTensor(segments + [Segment(raw, true)] + [Segment(tensor, false)])
    ensures !IsRaw(tensor) ==> EndsInTensor(segments + [Segment(tensor, false)])
  {
    hide IsRaw;
    NothingIsRaw();
  }

  lemma {:induction false} StreamIsCutAtTensors(nodes: seq<ExecNode>)
    ensures EndsInTensor(EncodedStream(nodes).committed) && IsRaw(EncodedStream(nodes).open)
  {
    hide Encode, EndsInTensor;
    NothingIsRaw();
    if |nodes| == 0 {
      NothingIsCut();
    } else {
      var n := |nodes| - 1;
      StreamIsCutAtTensors(nodes[..n]);
      EncodeIsRaw(nodes[n]);
      var s := EncodedStream(nodes[..n]);
      if nodes[n].work.TensorGraph? {
        if s.open != [] {
          CutSnoc(s.committed, s.open, Encode(nodes[n]));
        } else {
          TensorAfterTensor(s.committed, Encode(nodes[n]));
        }
      }
    }
  }

  lemma NothingIsCut()
    ensures EndsInTensor([])
  {
  }

  lemma TensorAfterTensor(segments: seq<Segment>, tensor: seq<Command>)
    requires EndsInTensor(segments) && !IsRaw(tensor)
    ensures EndsInTensor(segments + [Segment(tensor, false)])
  {
    hide IsRaw;
    NothingIsRaw();
  }

  /** A launch breaks its work into no more command buffers, and waits no more often, than it must. */
  lemma SegmentsAreCoarsest(nodes: seq<ExecNode>)
    ensures CutOnlyAtTensors(Segments(nodes))
  {
    hide IsRaw, Encode, EncodedStream;
    StreamIsCutAtTensors(nodes);
    NothingIsRaw();
    NoNodesNoStream();
    var s := EncodedStream(nodes);
    if s.open != [] {
      CutSnoc(s.committed, s.open, []);
    }
  }

  lemma NoNodesNoStream()
    ensures EncodedStream([]) == Stream([], [])
  {
  }

  /** Command buffers end between nodes: the first ones hold the commands of the first nodes, all of them. */
  lemma {:induction false} BoundaryInStream(nodes: seq<ExecNode>, k: nat) returns (j: nat)
    requires k <= |EncodedStream(nodes).committed|
    ensures j <= |nodes| && Flatten(EncodedStream(nodes).committed[..k]) == EncodeAll(nodes[..j])
    decreases |nodes|
  {
    hide Encode, StreamOk;
    if |nodes| == 0 {
      j := 0;
    } else {
      var n := |nodes| - 1;
      var s, t := EncodedStream(nodes[..n]), EncodedStream(nodes);
      if k <= |s.committed| {
        j := BoundaryInStream(nodes[..n], k);
        assert nodes[..n][..j] == nodes[..j] && t.committed[..k] == s.committed[..k];
      } else {
        j := if k == |t.committed| then |nodes| else n;
        assert nodes[..|nodes|] == nodes && t.committed[..|t.committed|] == t.committed;
        WholeStream(nodes);
        DrainedStream(nodes[..n]);
        assert k < |t.committed| ==> t.committed[..k] == Drained(s).committed;
      }
    }
  }

  lemma WholeStream(nodes: seq<ExecNode>)
    ensures var s := EncodedStream(nodes); Flatten(s.committed) + s.open == EncodeAll(nodes)
  {
    hide WellSegmented;
    StreamIsOk(nodes);
  }

  lemma DrainedStream(nodes: seq<ExecNode>)
    ensures Flatten(Drained(EncodedStream(nodes)).committed) == EncodeAll(nodes)
  {
    hide EncodeAll, Flatten, EncodedStream;
    WholeStream(nodes);
    var s := EncodedStream(nodes);
    FlattenSnoc(s.committed, Segment(s.open, true));
  }

  lemma SegmentsEndBetweenNodes(nodes: seq<ExecNode>, k: nat) returns (j: nat)
    requires k <= |Segments(nodes)|
    ensures j <= |nodes| && Flatten(Segments(nodes)[..k]) == EncodeAll(nodes[..j])
  {
    hide EncodeAll, Flatten, EncodedStream;
    var s := EncodedStream(nodes);
    if k <= |s.committed| {
      j := BoundaryInStream(nodes, k);
      assert Segments(nodes)[..k] == s.committed[..k];
    } else {
      j := |nodes|;
      SegmentationPreservesMeaning(nodes);
      assert Segments(nodes)[..k] == Segments(nodes) && nodes[..j] == nodes;
    }
  }

  /** A single raw node that encodes something makes one segment. */
  lemma SingleRawNode(n: ExecNode)
    requires !n.work.TensorGraph?
    ensures EncodedStream([n]) == Stream([], Encode(n))
    ensures Encode(n) != [] ==> Segments([n]) == [Segment(Encode(n), false)]
    ensures Encode(n) == [] ==> Segments([n]) == []
  {
    hide Encode;
    assert [n][..0] == [];
    assert EncodedStream([]) == Stream([], []);
    assert EncodedStream([n]) == EncodeNext(Stream([], []), n);
    assert [] + Encode(n) == Encode(n);
  }

  /** A launch commits something exactly when it has no nodes or some node encodes a command. */
  lemma CommitsSomething(nodes: seq<ExecNode>)
    ensures Segments(nodes) != [] <==> nodes == [] || EncodeAll(nodes) != []
  {
    hide WellSegmented, Encode;
    StreamIsOk(nodes);
    var s := EncodedStream(nodes);
    if s.committed != [] {
      assert s.committed[|s.committed| - 1].commands != [];
    }
  }

  // ---- order ----

  /** The command at a position belongs to a node; nodes earlier in the list come first. */
  lemma {:induction false} CommandHasNode(nodes: seq<ExecNode>, p: nat) returns (i: nat)
    requires p < |EncodeAll(nodes)|
    ensures i < |nodes| && EncodeAll(nodes)[p].node == nodes[i].id
    ensures |EncodeAll(nodes[..i])| <= p < |EncodeAll(nodes[..i + 1])|
    ensures EncodeAll(nodes)[p] in Encode(nodes[i])
    decreases |nodes|
  {
    hide Encode;
    var n := |nodes| - 1;
    var rest := EncodeAll(nodes[..n]);
    assert nodes[..n + 1] == nodes;
    if p < |rest| {
      i := CommandHasNode(nodes[..n], p);
      assert nodes[..n][..i] == nodes[..i] && nodes[..n][..i + 1] == nodes[..i + 1];
    } else {
      i := n;
      assert EncodeAll(nodes)[p] == Encode(nodes[n])[p - |rest|];
      EncodeNamesItsNode(nodes[n]);
    }
  }

  lemma EncodeNamesItsNode(n: ExecNode)
    ensures forall c :: c in Encode(n) ==> c.node == n.id
  {
  }

  lemma {:induction false} EncodeAllGrows(nodes: seq<ExecNode>, i: nat, j: nat)
    requires i <= j <= |nodes|
    ensures |EncodeAll(nodes[..i])| <= |EncodeAll(nodes[..j])|
    decreases j - i
  {
    hide Encode;
    if i < j {
      EncodeAllGrows(nodes, i, j - 1);
      assert nodes[..j][..j - 1] == nodes[..j - 1];
    }
  }

  /** With distinct identifiers, commands of an earlier node precede those of a later one. */
  lemma CommandsFollowNodes(nodes: seq<ExecNode>, i: nat, j: nat, p: nat, q: nat)
    requires forall a, b :: 0 <= a < b < |nodes| ==> nodes[a].id != nodes[b].id
    requires i < j < |nodes| && p < |EncodeAll(nodes)| && q < |EncodeAll(nodes)|
    requires EncodeAll(nodes)[p].node == nodes[i].id && EncodeAll(nodes)[q].node == nodes[j].id
    ensures p < q
  {
    hide *;
    var i' := CommandHasNode(nodes, p);
    var j' := CommandHasNode(nodes, q);
    EncodeAllGrows(nodes, i + 1, j);
  }
}
