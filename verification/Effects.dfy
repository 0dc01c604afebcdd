/**
 What executing commands does. The meaning of a command is given on a machine of byte memories, events
 and opaque runs; the meaning of a node is given from its work alone, in terms of the wrappers a caller
 knows. A node's commands have the node's meaning, and a launch's log that of its nodes in order.
 */
module Effects {
  import opened Prelude
  import opened Model
  import opened Validation
  import opened Planner
  import opened Builder
  import opened Commands
  import opened Exec
  import opened Bounds

  /** The bytes of all Metal buffers, by handle and address. */
  type Bytes = (nat, nat) -> nat

  /** What leaves a trace: event operations, in order, and runs of kernels and tensor graphs. */
  datatype Happening =
    | Waited(event: Event, value: nat)
    | Signalled(event: Event, value: nat)
    | KernelRan(pipeline: Impl, bindings: seq<BoundBuffer>, scalars: seq<Scalar>, grid: Dims, threads: Dims)
    | TensorGraphRan(executable: Impl, feeds: seq<Tensor>, targets: seq<Tensor>)

  datatype Machine = Machine(bytes: Bytes, workspace: nat -> nat, trace: seq<Happening>)

  /** What kernels and tensor graphs do to memory is not known here. */
  datatype Gpu = Gpu(run: (Happening, Bytes) -> Bytes)

  // ---- commands ----

  /** Memory after `count` bytes from `lo` on in a buffer were set. */
  function Write(bytes: Bytes, handle: nat, lo: nat, count: nat, value: nat -> nat): Bytes {
    (h: nat, a: nat) => if h == handle && lo <= a < lo + count then value(a - lo) else bytes(h, a)
  }

  function Set(workspace: nat -> nat, lo: nat, count: nat, value: nat): nat -> nat {
    (a: nat) => if lo <= a < lo + count then value else workspace(a)
  }

  function Happen(gpu: Gpu, m: Machine, h: Happening): Machine {
    m.(bytes := gpu.run(h, m.bytes), trace := m.trace + [h])
  }

  function Execute(gpu: Gpu, m: Machine, op: Op): Machine {
    match op
    case RunKernel(pipeline, bindings, scalars, grid, threads) =>
      Happen(gpu, m, KernelRan(pipeline, bindings, scalars, grid, threads))
    case CopyBytes(src, srcOffset, dst, dstOffset, byteCount) =>
      m.(bytes := Write(m.bytes, dst.handle, dstOffset, byteCount, (i: nat) => m.bytes(src.handle, srcOffset + i)))
    case FillBytes(metal, offset, byteCount, value) =>
      m.(bytes := Write(m.bytes, metal.handle, offset, byteCount, (i: nat) => value))
    case WaitEvent(event, value) => m.(trace := m.trace + [Waited(event, value)])
    case SignalEvent(event, value) => m.(trace := m.trace + [Signalled(event, value)])
    case RunTensorGraph(executable, feeds, targets) =>
      Happen(gpu, m, TensorGraphRan(executable, feeds, targets))
    case FillWorkspace(offset, size, byte) =>
      m.(workspace := Set(m.workspace, offset, size, byte))
    case CopyFromWorkspace(offset, to, toOffset, size) =>
      m.(bytes := Write(m.bytes, to.handle, toOffset, size, (i: nat) => m.workspace(offset + i)))
  }

  function ExecuteAll(gpu: Gpu, m: Machine, commands: seq<Command>): Machine {
    if |commands| == 0 then m
    else Execute(gpu, ExecuteAll(gpu, m, commands[..|commands| - 1]), commands[|commands| - 1].op)
  }

  // ---- nodes ----

  /** Where a byte of a wrapper lies in its Metal buffer. */
  function Address(b: Buffer, offset: nat): nat {
    b.byteOffset + offset
  }

  /** The byte at a place of a wrapper's range. */
  function ByteAt(bytes: Bytes, b: Buffer, offset: nat, i: nat): nat {
    bytes(b.metal.handle, Address(b, offset) + i)
  }

  predicate InWindow(h: nat, a: nat, b: Buffer, offset: nat, count: nat) {
    h == b.metal.handle && Address(b, offset) <= a < Address(b, offset) + count
  }

  /** Memory differs in a window of one wrapper at most. */
  ghost predicate OnlyWrites(before: Bytes, after: Bytes, b: Buffer, offset: nat, count: nat) {
    forall h: nat, a: nat :: !InWindow(h, a, b, offset, count) ==> after(h, a) == before(h, a)
  }

  /** Byte for byte, the destination range is what the source range was; nothing else changed. */
  ghost predicate Copied(c: CopyWork, before: Bytes, after: Bytes) {
    && (forall i: nat :: i < c.byteCount ==>
          ByteAt(after, c.dst, c.dstOffset, i) == ByteAt(before, c.src, c.srcOffset, i))
    && OnlyWrites(before, after, c.dst, c.dstOffset, c.byteCount)
  }

  /** Every byte of the range has the value; nothing else changed. */
  ghost predicate Filled(dst: Buffer, offset: nat, count: nat, value: nat, before: Bytes, after: Bytes) {
    && (forall i: nat :: i < count ==> ByteAt(after, dst, offset, i) == value)
    && OnlyWrites(before, after, dst, offset, count)
  }

  /** Each binding of the node, at its absolute offset and under its own index. */
  ghost predicate BoundAs(bindings: seq<Binding>, bound: seq<BoundBuffer>) {
    && |bound| == |bindings|
    && forall i :: 0 <= i < |bindings| ==>
         && bound[i].metal == bindings[i].buffer.metal
         && bound[i].offset == Address(bindings[i].buffer, bindings[i].offset)
         && bound[i].index == bindings[i].index
  }

  /** The kernel the descriptor names ran once, on the node's bindings, scalars, grid and threads. */
  ghost predicate RanKernel(gpu: Gpu, d: DispatchWork, m: Machine, m': Machine) {
    exists bound :: BoundAs(d.buffers, bound)
      && m' == Happen(gpu, m, KernelRan(Pipeline(d.metallib, d.kernel), bound, d.scalars, d.grid, d.threads))
  }

  /** What a node is for, told from its work; `slice` is where its workspace lies. */
  ghost predicate Does(gpu: Gpu, w: Work, slice: nat, m: Machine, m': Machine) {
    match w
    case Dispatch(d) => RanKernel(gpu, d, m, m')
    case Copy(c) => Copied(c, m.bytes, m'.bytes) && m'.workspace == m.workspace && m'.trace == m.trace
    case Fill(f) =>
      && Filled(f.dst, f.dstOffset, f.byteCount, f.value, m.bytes, m'.bytes)
      && m'.workspace == m.workspace && m'.trace == m.trace
    case EventWait(event, value) => m' == m.(trace := m.trace + [Waited(event, value)])
    case EventSignal(event, value) => m' == m.(trace := m.trace + [Signalled(event, value)])
    case Barrier => m' == m
    case TensorGraph(package, feeds, targets) =>
      m' == Happen(gpu, m, TensorGraphRan(Executable(package), feeds, targets))
    case Workspace(_, _) => m' == m
    case WorkspaceFill(size, _, byte, dst, dstOffset) =>
      && Filled(dst, dstOffset, size, byte, m.bytes, m'.bytes) && m'.trace == m.trace
      && forall a: nat :: m'.workspace(a) == if slice <= a < slice + size then byte else m.workspace(a)
  }

  lemma ExecuteOne(gpu: Gpu, m: Machine, c: Command)
    ensures ExecuteAll(gpu, m, [c]) == Execute(gpu, m, c.op)
  {
    assert [c][..0] == [];
    assert ExecuteAll(gpu, m, []) == m;
  }

  lemma {:induction false} ExecuteConcat(gpu: Gpu, m: Machine, a: seq<Command>, b: seq<Command>)
    ensures ExecuteAll(gpu, m, a + b) == ExecuteAll(gpu, ExecuteAll(gpu, m, a), b)
    decreases |b|
  {
    hide Execute;
    if |b| == 0 {
      assert a + b == a;
    } else {
      var n := |b| - 1;
      ExecuteConcat(gpu, m, a, b[..n]);
      assert (a + b)[..|a + b| - 1] == a + b[..n];
    }
  }

  lemma DispatchDoes(gpu: Gpu, n: ExecNode, m: Machine)
    requires n.work.Dispatch? && NodeOk(n) && WorkBuffersOk(n.work)
    ensures RanKernel(gpu, n.work.dispatch, m, ExecuteAll(gpu, m, Encode(n)))
  {
    hide ResourcesOk, ScalarsOk, DimsValid, DimsWithin, FlagsOk, Happen;
    var d := n.work.dispatch;
    assert BindingsOk(d.buffers);
    forall i | 0 <= i < |d.buffers|
      ensures Bound(d.buffers[i]).offset == Address(d.buffers[i].buffer, d.buffers[i].offset)
    {
      assert d.buffers[i].buffer == WorkBuffers(n.work)[i];
      OffsetsDoNotWrap(d.buffers[i].buffer, d.buffers[i].offset);
    }
    assert BoundAs(d.buffers, BoundBuffers(d.buffers));
    ExecuteOne(gpu, m, Encode(n)[0]);
  }

  lemma CopyDoes(gpu: Gpu, n: ExecNode, m: Machine)
    requires n.work.Copy? && WorkOk(n.work) && WorkBuffersOk(n.work)
    ensures Does(gpu, n.work, n.offset, m, ExecuteAll(gpu, m, Encode(n)))
  {
    var c := n.work.copy;
    assert WorkBuffers(n.work) == [c.src, c.dst];
    OffsetsDoNotWrap(c.src, c.srcOffset);
    OffsetsDoNotWrap(c.dst, c.dstOffset);
    ExecuteOne(gpu, m, Encode(n)[0]);
  }

  lemma FillDoes(gpu: Gpu, n: ExecNode, m: Machine)
    requires n.work.Fill? && WorkOk(n.work) && WorkBuffersOk(n.work)
    ensures Does(gpu, n.work, n.offset, m, ExecuteAll(gpu, m, Encode(n)))
  {
    var f := n.work.fill;
    assert WorkBuffers(n.work) == [f.dst];
    OffsetsDoNotWrap(f.dst, f.dstOffset);
    ExecuteOne(gpu, m, Encode(n)[0]);
  }

  lemma WorkspaceFillDoes(gpu: Gpu, n: ExecNode, m: Machine)
    requires n.work.WorkspaceFill? && WorkOk(n.work) && WorkBuffersOk(n.work)
    ensures Does(gpu, n.work, n.offset, m, ExecuteAll(gpu, m, Encode(n)))
  {
    assert WorkBuffers(n.work) == [n.work.dst];
    OffsetsDoNotWrap(n.work.dst, n.work.dstOffset);
    var fill, copy := Encode(n)[0], Encode(n)[1];
    assert Encode(n) == [fill] + [copy];
    ExecuteConcat(gpu, m, [fill], [copy]);
    ExecuteOne(gpu, m, fill);
    ExecuteOne(gpu, ExecuteAll(gpu, m, [fill]), copy);
  }

  /** Executing the commands of a well-formed node does what the node's work says. */
  lemma NodeDoes(gpu: Gpu, n: ExecNode, m: Machine)
    requires NodeOk(n) && WorkBuffersOk(n.work)
    ensures Does(gpu, n.work, n.offset, m, ExecuteAll(gpu, m, Encode(n)))
  {
    hide WorkBuffersOk, WorkOk, FlagsOk, Copied, Filled, RanKernel;
    match n.work
    case Dispatch(_) => DispatchDoes(gpu, n, m);
    case Copy(_) => CopyDoes(gpu, n, m);
    case Fill(_) => FillDoes(gpu, n, m);
    case WorkspaceFill(_, _, _, _, _) => WorkspaceFillDoes(gpu, n, m);
    case Barrier =>
    case Workspace(_, _) =>
    case _ => ExecuteOne(gpu, m, Encode(n)[0]);
  }

  // ---- logs ----

  /** The machine between the nodes: before the first, after each. */
  ghost predicate DoneInOrder(gpu: Gpu, nodes: seq<ExecNode>, states: seq<Machine>) {
    && |states| == |nodes| + 1
    && forall i :: 0 <= i < |nodes| ==> Does(gpu, nodes[i].work, nodes[i].offset, states[i], states[i + 1])
  }

  /** Executing all commands of sound nodes does what the nodes say, one after the other. */
  lemma {:induction false} NodesDo(gpu: Gpu, nodes: seq<ExecNode>, m: Machine) returns (states: seq<Machine>)
    requires forall i :: 0 <= i < |nodes| ==> NodeOk(nodes[i]) && WorkBuffersOk(nodes[i].work)
    ensures DoneInOrder(gpu, nodes, states) && states[0] == m && states[|nodes|] == ExecuteAll(gpu, m, EncodeAll(nodes))
    decreases |nodes|
  {
    hide NodeOk, WorkBuffersOk, Does, Encode;
    if |nodes| == 0 {
      states := [m];
    } else {
      var n := |nodes| - 1;
      var front := NodesDo(gpu, nodes[..n], m);
      var last := ExecuteAll(gpu, front[n], Encode(nodes[n]));
      states := front + [last];
      NodeDoes(gpu, nodes[n], front[n]);
      ExecuteConcat(gpu, m, EncodeAll(nodes[..n]), Encode(nodes[n]));
      forall i | 0 <= i < |nodes|
        ensures Does(gpu, nodes[i].work, nodes[i].offset, states[i], states[i + 1])
      {
        if i < n {
          assert nodes[..n][i] == nodes[i] && states[i] == front[i] && states[i + 1] == front[i + 1];
        }
      }
    }
  }
}
