/**
 The whole runtime as a state machine: graphs, execs and launches sharing counted objects, and every
 API call that succeeds as a step. (Calls that fail leave this state as it was, except that a failed
 launch may move ICB counters and leave commands with the GPU, which is a step here.) An exec may be
 destroyed only when it is not in flight, as the interface demands. The theorems are about every run
 from the empty runtime.
 */
module World {
  import opened Prelude
  import opened Sums
  import opened Model
  import opened Validation
  import opened Topology
  import opened Planner
  import opened Builder
  import opened Commands
  import opened Exec
  import opened Bounds
  import opened Patching
  import opened Instantiation
  import opened Launching

  /** An exec with the snapshot it was made from and the schedule that was used. */
  datatype ExecRecord = ExecRecord(state: ExecState, source: GraphState, order: seq<nat>)

  /** A launch and the exec it was launched from; once destroyed it is no longer `alive` and holds nothing. */
  datatype LaunchRecord = LaunchRecord(
    exec: nat, from: ExecRecord, buffers: seq<Buffer>, events: seq<Event>, segments: seq<Segment>,
    completed: bool, alive: bool)

  /** A launch that failed, the exec it was launched from, and the requests that were refused. */
  datatype Failure = Failure(exec: nat, from: ExecRecord, faults: set<LaunchFault>)

  /** What it had committed by then. */
  function LeftLog(f: Failure): seq<Segment> {
    FailureOf(f.from.state, f.faults).log
  }

  /** `refs` are the reference counts, `handles` the references the caller owns. */
  datatype State = State(
    refs: multiset<Ref>, handles: multiset<Ref>,
    graphs: map<nat, GraphState>, execs: map<nat, ExecRecord>, launches: map<nat, LaunchRecord>,
    failures: seq<Failure>)

  const EMPTY := State(multiset{}, multiset{}, map[], map[], map[], [])

  // ---- steps ----

  datatype Call =
    | CreateObject(ref: Ref)
    | DropHandle(ref: Ref)
    | CreateGraph(g: nat)
    | AddNode(g: nat, work: Work)
    | AddEdge(g: nat, before: nat, after: nat)
    | DeclareFlags(g: nat, index: nat, flags: set<PatchFlag>)
    | AttachArena(g: nat, arena: Arena)
    | DestroyGraph(g: nat)
    | Instantiate(g: nat, e: nat, device: nat, available: bool, creates: bool, order: seq<nat>, made: ExecState)
    | PatchExec(e: nat, id: NodeId, patch: Patch)
    | SetOptimization(e: nat, enabled: set<OptFlag>)
    | FailLaunch(e: nat, faults: set<LaunchFault>)
    | LaunchExec(e: nat, l: nat)
    | Synchronize(l: nat)
    | DestroyLaunch(l: nat)
    | DestroyExec(e: nat)

  function PatchRefs(p: Patch): set<Ref> {
    match p
    case PatchBuffer(_, buffer, _) => {BufferRef(buffer)}
    case PatchCopy(c) => {BufferRef(c.src), BufferRef(c.dst)}
    case PatchFill(f) => {BufferRef(f.dst)}
    case _ => {}
  }

  /** What the interface asks of the caller, and what the call needs in order to succeed. */
  ghost predicate Enabled(w: State, c: Call) {
    match c
    case CreateObject(r) => r !in w.refs && RefOk(r)
    case DropHandle(r) => r in w.handles
    case CreateGraph(g) => g !in w.graphs
    case AddNode(g, work) => g in w.graphs && Acceptable(work) && forall r :: r in WorkSlots(work) ==> r in w.refs
    case AddEdge(g, before, after) =>
      g in w.graphs && before < |w.graphs[g].nodes| && after < |w.graphs[g].nodes| && before != after
    case DeclareFlags(g, index, flags) =>
      g in w.graphs && index < |w.graphs[g].nodes| && FlagsOk(w.graphs[g].nodes[index].work, flags)
    case AttachArena(g, arena) => g in w.graphs && ArenaRef(arena) in w.refs
    case DestroyGraph(g) => g in w.graphs
    case Instantiate(g, e, device, available, creates, order, made) =>
      && g in w.graphs && e !in w.execs
      && (forall l :: l in w.launches ==> w.launches[l].exec != e)
      && (forall k :: 0 <= k < |w.failures| ==> w.failures[k].exec != e)
      && Instantiated(w.graphs[g], order, device, available, creates, made)
    case PatchExec(e, _, p) => e in w.execs && forall r :: r in PatchRefs(p) ==> r in w.refs
    case SetOptimization(e, _) => e in w.execs
    case FailLaunch(e, faults) => e in w.execs && LaunchFails(w.execs[e].state, faults)
    case LaunchExec(e, l) => e in w.execs && l !in w.launches
    case Synchronize(l) => l in w.launches && w.launches[l].alive
    case DestroyLaunch(l) => l in w.launches && w.launches[l].alive
    case DestroyExec(e) => e in w.execs && w.execs[e].state.inFlight == 0
  }

  function PutGraph(w: State, g: nat, graph: GraphState): (r: State)
    ensures r.execs == w.execs && r.refs == w.refs && r.handles == w.handles && r.launches == w.launches
    ensures r.failures == w.failures
  {
    w.(graphs := w.graphs[g := graph])
  }

  function PutExec(w: State, e: nat, state: ExecState): (r: State)
    requires e in w.execs
    ensures r.graphs == w.graphs && r.refs == w.refs && r.handles == w.handles && r.launches == w.launches
    ensures r.failures == w.failures
  {
    w.(execs := w.execs[e := w.execs[e].(state := state)])
  }

  function LaunchOf(e: nat, x: ExecRecord): LaunchRecord {
    LaunchRecord(e, x, AllBuffers(x.state.nodes), AllEvents(x.state.nodes), LaunchSegments(x.state), false, true)
  }

  function LaunchRefs(l: LaunchRecord): multiset<Ref> {
    if l.alive then HeldRefs(l.buffers, l.events) else multiset{}
  }

  function RecordRefs(x: ExecRecord): multiset<Ref> {
    ExecRefs(x.state)
  }

  function AfterSynchronize(w: State, l: nat): (r: State)
    requires l in w.launches
    ensures r.graphs == w.graphs && r.refs == w.refs && r.handles == w.handles
  {
    var launch := w.launches[l];
    if launch.segments == [] || launch.completed then w
    else
      var done := w.(launches := w.launches[l := launch.(completed := true)]);
      if launch.exec in w.execs then PutExec(done, launch.exec, AfterComplete(w.execs[launch.exec].state))
      else done
  }

  ghost function Apply(w: State, c: Call): State
    requires Enabled(w, c)
  {
    match c
    case CreateObject(r) => w.(refs := w.refs + multiset{r}, handles := w.handles + multiset{r})
    case DropHandle(r) => w.(refs := w.refs - multiset{r}, handles := w.handles - multiset{r})
    case CreateGraph(g) => PutGraph(w, g, GraphState([], [], None))
    case AddNode(g, work) =>
      PutGraph(w, g, WithNode(w.graphs[g], Stored(work))).(refs := w.refs + WorkRefs(work))
    case AddEdge(g, before, after) => PutGraph(w, g, WithEdge(w.graphs[g], before, after))
    case DeclareFlags(g, index, flags) => PutGraph(w, g, WithFlags(w.graphs[g], index, flags))
    case AttachArena(g, arena) =>
      PutGraph(w, g, w.graphs[g].(arena := Some(arena)))
        .(refs := w.refs + ArenaRefs(Some(arena)) - ArenaRefs(w.graphs[g].arena))
    case DestroyGraph(g) => w.(graphs := w.graphs - {g}, refs := w.refs - GraphRefs(w.graphs[g]))
    case Instantiate(g, e, _, _, _, order, made) =>
      w.(execs := w.execs[e := ExecRecord(made, w.graphs[g], order)], refs := w.refs + ExecRefs(made))
    case PatchExec(e, id, p) =>
      PutExec(w, e, AfterPatch(w.execs[e].state, id, p)).(refs := RefsAfterPatch(w.execs[e].state, id, p, w.refs))
    case SetOptimization(e, enabled) => PutExec(w, e, AfterSetOptimization(w.execs[e].state, enabled))
    case FailLaunch(e, faults) =>
      PutExec(w, e, AfterFailedLaunch(w.execs[e].state, FailureOf(w.execs[e].state, faults).point))
        .(failures := w.failures + [Failure(e, w.execs[e], faults)])
    case LaunchExec(e, l) =>
      var launch := LaunchOf(e, w.execs[e]);
      PutExec(w, e, AfterLaunch(w.execs[e].state))
        .(launches := w.launches[l := launch], refs := w.refs + LaunchRefs(launch))
    case Synchronize(l) => AfterSynchronize(w, l)
    case DestroyLaunch(l) =>
      w.(launches := w.launches[l := w.launches[l].(alive := false)], refs := w.refs - LaunchRefs(w.launches[l]))
    case DestroyExec(e) => w.(execs := w.execs - {e}, refs := w.refs - RecordRefs(w.execs[e]))
  }

  /** A run: every call is enabled where it is made. */
  ghost predicate Legal(calls: seq<Call>)
    decreases |calls|, 0
  {
    |calls| == 0 || (Legal(calls[..|calls| - 1]) && Enabled(After(calls[..|calls| - 1]), calls[|calls| - 1]))
  }

  /** Where a run leads, from the empty runtime. */
  ghost function After(calls: seq<Call>): State
    requires Legal(calls)
    decreases |calls|, 1
  {
    if |calls| == 0 then EMPTY else Apply(After(calls[..|calls| - 1]), calls[|calls| - 1])
  }

  // ---- what a call does, part by part ----

  /** Calls that carry out an operation of an exec, and which. */
  predicate StepsExec(c: Call) {
    c.PatchExec? || c.SetOptimization? || c.FailLaunch? || c.LaunchExec?
  }

  function OpOf(w: State, c: Call): ExecOp
    requires StepsExec(c) && c.e in w.execs
  {
    match c
    case PatchExec(_, id, p) => OpPatch(id, p)
    case SetOptimization(_, enabled) => OpSetOptimization(enabled)
    case FailLaunch(e, faults) => OpFailedLaunch(FailureOf(w.execs[e].state, faults).point)
    case LaunchExec(_, _) => OpLaunch
  }

  lemma PatchIs(w: State, e: nat, id: NodeId, p: Patch)
    requires Enabled(w, PatchExec(e, id, p))
    ensures e in w.execs
    ensures Apply(w, PatchExec(e, id, p)).execs == PutExec(w, e, AfterPatch(w.execs[e].state, id, p)).execs
  {
    hide Acceptable, FlagsOk, Instantiated, LaunchFails, FailureOf, AfterPatch, RefsAfterPatch, AfterSynchronize;
  }

  lemma SetIs(w: State, e: nat, enabled: set<OptFlag>)
    requires Enabled(w, SetOptimization(e, enabled))
    ensures e in w.execs
    ensures Apply(w, SetOptimization(e, enabled)).execs
         == PutExec(w, e, AfterSetOptimization(w.execs[e].state, enabled)).execs
  {
    hide Acceptable, FlagsOk, Instantiated, LaunchFails, FailureOf, AfterPatch, RefsAfterPatch, AfterSynchronize;
  }

  lemma FailIs(w: State, e: nat, faults: set<LaunchFault>)
    requires Enabled(w, FailLaunch(e, faults))
    ensures e in w.execs && LaunchFails(w.execs[e].state, faults)
    ensures Apply(w, FailLaunch(e, faults)).execs
         == PutExec(w, e, AfterFailedLaunch(w.execs[e].state, FailureOf(w.execs[e].state, faults).point)).execs
    ensures Apply(w, FailLaunch(e, faults)).failures == w.failures + [Failure(e, w.execs[e], faults)]
  {
    hide Acceptable, FlagsOk, Instantiated, LaunchFails, FailureOf, AfterPatch, RefsAfterPatch, AfterSynchronize;
  }

  lemma LaunchCallIs(w: State, e: nat, l: nat)
    requires Enabled(w, LaunchExec(e, l))
    ensures e in w.execs && Apply(w, LaunchExec(e, l)).execs == PutExec(w, e, AfterLaunch(w.execs[e].state)).execs
  {
    hide Acceptable, FlagsOk, Instantiated, LaunchFails, FailureOf, AfterPatch, RefsAfterPatch, AfterSynchronize;
  }

  lemma ExecCallSteps(w: State, c: Call)
    requires Enabled(w, c) && StepsExec(c)
    ensures c.e in w.execs
    ensures Apply(w, c).execs == PutExec(w, c.e, Step(w.execs[c.e].state, OpOf(w, c))).execs
  {
    hide Enabled, Apply, AfterPatch, AfterLaunch, AfterFailedLaunch, AfterSetOptimization, PutExec;
    match c
    case PatchExec(e, id, p) => PatchIs(w, e, id, p);
    case SetOptimization(e, enabled) => SetIs(w, e, enabled);
    case FailLaunch(e, faults) => FailIs(w, e, faults);
    case LaunchExec(e, l) => LaunchCallIs(w, e, l);
  }

  lemma OtherCallsKeepExecs(w: State, c: Call)
    requires Enabled(w, c) && !StepsExec(c) && !c.Instantiate? && !c.Synchronize? && !c.DestroyExec?
    ensures Apply(w, c).execs == w.execs
  {
    hide Acceptable, FlagsOk, Instantiated, LaunchFails, FailureOf, AfterPatch, RefsAfterPatch, AfterSynchronize;
  }

  lemma SynchronizeIs(w: State, l: nat)
    requires Enabled(w, Synchronize(l))
    ensures l in w.launches && w.launches[l].alive && Apply(w, Synchronize(l)) == AfterSynchronize(w, l)
  {
    hide Acceptable, FlagsOk, Instantiated, LaunchFails, FailureOf, AfterPatch, RefsAfterPatch, AfterSynchronize;
  }

  lemma InstantiateIs(w: State, c: Call)
    requires Enabled(w, c) && c.Instantiate?
    ensures c.g in w.graphs && c.e !in w.execs && forall l :: l in w.launches ==> w.launches[l].exec != c.e
    ensures Instantiated(w.graphs[c.g], c.order, c.device, c.available, c.creates, c.made)
    ensures var v := Apply(w, c);
      && v.execs == w.execs[c.e := ExecRecord(c.made, w.graphs[c.g], c.order)]
      && v == w.(execs := v.execs, refs := w.refs + ExecRefs(c.made))
  {
    hide Acceptable, FlagsOk, Instantiated, LaunchFails, FailureOf, AfterPatch, RefsAfterPatch, AfterSynchronize;
  }

  lemma DestroyExecIs(w: State, e: nat)
    requires Enabled(w, DestroyExec(e))
    ensures e in w.execs && w.execs[e].state.inFlight == 0
    ensures Apply(w, DestroyExec(e)) == w.(execs := w.execs - {e}, refs := w.refs - RecordRefs(w.execs[e]))
  {
    hide Acceptable, FlagsOk, Instantiated, LaunchFails, FailureOf, AfterPatch, RefsAfterPatch, AfterSynchronize;
  }

  predicate ChangesLaunches(c: Call) {
    c.LaunchExec? || c.Synchronize? || c.DestroyLaunch?
  }

  /** What a call does to the launches. */
  function LaunchesAfter(w: State, c: Call): map<nat, LaunchRecord>
    requires c.LaunchExec? ==> c.e in w.execs
    requires c.Synchronize? || c.DestroyLaunch? ==> c.l in w.launches
  {
    match c
    case LaunchExec(e, l) => w.launches[l := LaunchOf(e, w.execs[e])]
    case Synchronize(l) =>
      if w.launches[l].segments == [] then w.launches else w.launches[l := w.launches[l].(completed := true)]
    case DestroyLaunch(l) => w.launches[l := w.launches[l].(alive := false)]
    case _ => w.launches
  }

  lemma OtherCallsKeepLaunches(w: State, c: Call)
    requires Enabled(w, c) && !ChangesLaunches(c)
    ensures Apply(w, c).launches == w.launches
  {
    hide Acceptable, FlagsOk, Instantiated, LaunchFails, FailureOf, AfterPatch, RefsAfterPatch, AfterSynchronize;
  }

  lemma LaunchIs(w: State, c: Call)
    requires Enabled(w, c) && c.LaunchExec?
    ensures c.e in w.execs && c.l !in w.launches
    ensures Apply(w, c).launches == LaunchesAfter(w, c)
  {
    hide Acceptable, FlagsOk, Instantiated, LaunchFails, FailureOf, AfterPatch, RefsAfterPatch, AfterSynchronize;
  }

  lemma DestroyLaunchIs(w: State, l: nat)
    requires Enabled(w, DestroyLaunch(l))
    ensures l in w.launches && w.launches[l].alive
    ensures Apply(w, DestroyLaunch(l))
         == w.(launches := w.launches[l := w.launches[l].(alive := false)], refs := w.refs - LaunchRefs(w.launches[l]))
  {
    hide Acceptable, FlagsOk, Instantiated, LaunchFails, FailureOf, AfterPatch, RefsAfterPatch, AfterSynchronize;
  }

  lemma SynchronizeChangesLaunches(w: State, l: nat)
    requires l in w.launches
    ensures AfterSynchronize(w, l).launches == LaunchesAfter(w, Synchronize(l))
  {
    hide AfterComplete;
    if w.launches[l].completed {
      assert w.launches[l := w.launches[l].(completed := true)] == w.launches;
    }
  }

  lemma CallChangesLaunches(w: State, c: Call)
    requires Enabled(w, c)
    ensures c.LaunchExec? ==> c.e in w.execs && c.l !in w.launches
    ensures c.Synchronize? || c.DestroyLaunch? ==> c.l in w.launches && w.launches[c.l].alive
    ensures Apply(w, c).launches == LaunchesAfter(w, c)
  {
    hide Apply, Enabled, LaunchOf, AfterSynchronize, LaunchRefs;
    match c
    case Synchronize(l) =>
      SynchronizeIs(w, l);
      SynchronizeChangesLaunches(w, l);
    case LaunchExec(_, _) => LaunchIs(w, c);
    case DestroyLaunch(l) => DestroyLaunchIs(w, l);
    case _ => OtherCallsKeepLaunches(w, c);
  }

  // ---- the invariant ----

  /** One count per caller handle and per slot of a live graph, exec or launch. */
  ghost function Expected(w: State): multiset<Ref> {
    w.handles + Total(w.graphs, GraphRefs) + Total(w.execs, RecordRefs) + Total(w.launches, LaunchRefs)
  }

  /** An exec node is the snapshot's node but for declared fields. */
  ghost predicate DescendsFrom(n: Node, e: ExecNode) {
    e.id == n.id && e.flags == n.flags && WorkFrozen(n.flags, n.work, e.work)
  }

  ghost predicate SnapshotOk(x: ExecRecord) {
    && GraphOk(x.source)
    && IsSchedule(x.order, x.source.edges, |x.source.nodes|)
    && IsDepthSorted(x.order, x.source.edges, |x.source.nodes|)
    && |x.state.nodes| == |x.order|
    && x.state.plan == PlanFor(Requirements(x.source.nodes, x.order), x.source.arena)
    && RequirementsOk(Requirements(x.source.nodes, x.order))
    && Fits(Requirements(x.source.nodes, x.order), x.source.arena)
    && forall i :: 0 <= i < |x.order| ==> DescendsFrom(x.source.nodes[x.order[i]], x.state.nodes[i])
  }

  ghost predicate GraphsOk(w: State) {
    forall g :: g in w.graphs ==> GraphOk(w.graphs[g])
  }

  ghost predicate ExecsOk(w: State) {
    forall e :: e in w.execs ==> ExecOk(w.execs[e].state) && SnapshotOk(w.execs[e])
  }

  ghost predicate RefsOk(w: State) {
    forall r :: r in w.refs ==> RefOk(r)
  }

  /** The launches an exec returned that no synchronize has completed. */
  function Outstanding(launches: map<nat, LaunchRecord>, e: nat): set<nat> {
    set l | l in launches && launches[l].exec == e && !launches[l].completed
  }

  ghost predicate FlightsOk(w: State) {
    && (forall e :: e in w.execs ==> w.execs[e].state.inFlight == |Outstanding(w.launches, e)|)
    && (forall l :: l in w.launches && !w.launches[l].completed ==> w.launches[l].exec in w.execs)
  }

  /** A well-formed exec over sound buffers, true to its snapshot. */
  ghost predicate RecordSound(x: ExecRecord) {
    && ExecOk(x.state) && SnapshotOk(x)
    && forall i :: 0 <= i < |x.state.nodes| ==> WorkBuffersOk(x.state.nodes[i].work)
  }

  /** A launch holds and has committed what launching that exec takes and commits. */
  ghost predicate LaunchOk(x: LaunchRecord) {
    && RecordSound(x.from)
    && x.buffers == AllBuffers(x.from.state.nodes) && x.events == AllEvents(x.from.state.nodes)
    && x.segments == LaunchSegments(x.from.state)
  }

  ghost predicate AttemptsOk(w: State) {
    && (forall l :: l in w.launches ==> LaunchOk(w.launches[l]))
    && (forall k :: 0 <= k < |w.failures| ==>
          RecordSound(w.failures[k].from) && LaunchFails(w.failures[k].from.state, w.failures[k].faults))
  }

  /** While a launch is not completed, its exec keeps the nodes and the plan it was launched with. */
  ghost predicate NodesKept(w: State) {
    forall l :: l in w.launches && !w.launches[l].completed ==>
      && w.launches[l].exec in w.execs
      && w.execs[w.launches[l].exec].state.nodes == w.launches[l].from.state.nodes
      && w.execs[w.launches[l].exec].state.plan == w.launches[l].from.state.plan
  }

  ghost predicate Invariant(w: State) {
    && w.refs == Expected(w)
    && GraphsOk(w)
    && ExecsOk(w)
    && RefsOk(w)
    && FlightsOk(w)
    && AttemptsOk(w)
    && NodesKept(w)
  }

  // ---- every live slot is counted ----

  lemma GraphShareIsCounted(w: State, g: nat)
    requires w.refs == Expected(w) && g in w.graphs
    ensures GraphRefs(w.graphs[g]) <= w.refs
  {
    hide GraphRefs;
    TotalPick(w.graphs, GraphRefs, g);
  }

  lemma ExecShareIsCounted(w: State, e: nat)
    requires w.refs == Expected(w) && e in w.execs
    ensures ExecRefs(w.execs[e].state) <= w.refs
  {
    hide ExecRefs;
    TotalPick(w.execs, RecordRefs, e);
  }

  lemma LaunchShareIsCounted(w: State, l: nat)
    requires w.refs == Expected(w) && l in w.launches
    ensures LaunchRefs(w.launches[l]) <= w.refs
  {
    hide LaunchRefs;
    TotalPick(w.launches, LaunchRefs, l);
  }

  // ---- counts, call by call ----

  lemma CountsOfGraphCall(w: State, g: nat, graph: GraphState, refs: multiset<Ref>)
    requires w.refs == Expected(w) && g in w.graphs
    requires refs == w.refs - GraphRefs(w.graphs[g]) + GraphRefs(graph)
    ensures PutGraph(w, g, graph).(refs := refs).refs == Expected(PutGraph(w, g, graph).(refs := refs))
  {
    hide GraphRefs;
    TotalUpdate(w.graphs, GraphRefs, g, graph);
  }

  lemma CountsOfExecCall(w: State, e: nat, state: ExecState, refs: multiset<Ref>)
    requires w.refs == Expected(w) && e in w.execs
    requires refs == w.refs - ExecRefs(w.execs[e].state) + ExecRefs(state)
    ensures refs == Expected(PutExec(w, e, state).(refs := refs))
  {
    hide ExecRefs;
    TotalUpdate(w.execs, RecordRefs, e, w.execs[e].(state := state));
  }

  lemma AttachExchanges(g: GraphState, arena: Arena, refs: multiset<Ref>)
    requires GraphRefs(g) <= refs
    ensures refs + ArenaRefs(Some(arena)) - ArenaRefs(g.arena)
         == refs - GraphRefs(g) + GraphRefs(g.(arena := Some(arena)))
  {
    hide WorksRefs, ArenaRefs;
  }

  lemma SameShare(a: multiset<Ref>, refs: multiset<Ref>)
    requires a <= refs
    ensures refs - a + a == refs
  {
  }

  lemma AddNodeKeepsCounts(w: State, g: nat, work: Work)
    requires w.refs == Expected(w) && GraphsOk(w) && Enabled(w, AddNode(g, work))
    ensures Apply(w, AddNode(g, work)).refs == Expected(Apply(w, AddNode(g, work)))
  {
    hide Acceptable, FlagsOk, Instantiated, LaunchFails, FailureOf, AfterPatch, RefsAfterPatch, AfterSynchronize;
    hide Expected, GraphOk, GraphRefs, ExecRefs, LaunchRefs, LaunchOf, WorkSlots, WorkRefs, WithNode, Stored,
         AfterLaunch;
    GraphShareIsCounted(w, g);
    SameShare(GraphRefs(w.graphs[g]), w.refs);
    WithNodeOk(w.graphs[g], work);
    CountsOfGraphCall(w, g, WithNode(w.graphs[g], Stored(work)), w.refs + WorkRefs(work));
  }

  lemma AddEdgeKeepsCounts(w: State, g: nat, before: nat, after: nat)
    requires w.refs == Expected(w) && GraphsOk(w) && Enabled(w, AddEdge(g, before, after))
    ensures Apply(w, AddEdge(g, before, after)).refs == Expected(Apply(w, AddEdge(g, before, after)))
  {
    hide Acceptable, FlagsOk, Instantiated, LaunchFails, FailureOf, AfterPatch, RefsAfterPatch, AfterSynchronize;
    hide Expected, GraphOk, GraphRefs, ExecRefs, LaunchRefs, LaunchOf, WorkSlots, WorkRefs, WithNode, Stored,
         AfterLaunch;
    GraphShareIsCounted(w, g);
    SameShare(GraphRefs(w.graphs[g]), w.refs);
    WithEdgeOk(w.graphs[g], before, after);
    CountsOfGraphCall(w, g, WithEdge(w.graphs[g], before, after), w.refs);
  }

  lemma DeclareFlagsKeepsCounts(w: State, g: nat, index: nat, flags: set<PatchFlag>)
    requires w.refs == Expected(w) && GraphsOk(w) && Enabled(w, DeclareFlags(g, index, flags))
    ensures Apply(w, DeclareFlags(g, index, flags)).refs == Expected(Apply(w, DeclareFlags(g, index, flags)))
  {
    hide Acceptable, FlagsOk, Instantiated, LaunchFails, FailureOf, AfterPatch, RefsAfterPatch, AfterSynchronize;
    hide Expected, GraphOk, GraphRefs, ExecRefs, LaunchRefs, LaunchOf, WorkSlots, WorkRefs, WithNode, Stored,
         AfterLaunch;
    GraphShareIsCounted(w, g);
    SameShare(GraphRefs(w.graphs[g]), w.refs);
    WithFlagsOk(w.graphs[g], index, flags);
    CountsOfGraphCall(w, g, WithFlags(w.graphs[g], index, flags), w.refs);
  }

  lemma AttachArenaKeepsCounts(w: State, g: nat, arena: Arena)
    requires w.refs == Expected(w) && Enabled(w, AttachArena(g, arena))
    ensures Apply(w, AttachArena(g, arena)).refs == Expected(Apply(w, AttachArena(g, arena)))
  {
    hide Acceptable, FlagsOk, Instantiated, LaunchFails, FailureOf, AfterPatch, RefsAfterPatch, AfterSynchronize;
    hide Expected, GraphOk, GraphRefs, ExecRefs, LaunchRefs, LaunchOf, WorkSlots, WorkRefs, WithNode, Stored,
         AfterLaunch;
    GraphShareIsCounted(w, g);
    AttachExchanges(w.graphs[g], arena, w.refs);
    CountsOfGraphCall(w, g, w.graphs[g].(arena := Some(arena)),
                      w.refs + ArenaRefs(Some(arena)) - ArenaRefs(w.graphs[g].arena));
  }

  lemma PatchKeepsCounts(w: State, e: nat, id: NodeId, p: Patch)
    requires w.refs == Expected(w) && e in w.execs
    ensures var refs := RefsAfterPatch(w.execs[e].state, id, p, w.refs);
      refs == Expected(PutExec(w, e, AfterPatch(w.execs[e].state, id, p)).(refs := refs))
  {
    hide Expected, ExecRefs, PutExec, WithWork, WorkRefs;
    var s := w.execs[e].state;
    ExecShareIsCounted(w, e);
    SameShare(ExecRefs(s), w.refs);
    match PlanPatch(s, id, p)
    case Change(k, work) =>
      PatchExchangesRefs(s, k, work);
      Exchange(w.refs, ExecRefs(s), WorkRefs(s.nodes[k].work), WorkRefs(work));
      CountsOfExecCall(w, e, WithWork(s, k, work), w.refs + WorkRefs(work) - WorkRefs(s.nodes[k].work));
    case Reject(_) =>
      CountsOfExecCall(w, e, s, w.refs);
  }

  lemma Exchange(refs: multiset<Ref>, share: multiset<Ref>, out: multiset<Ref>, into: multiset<Ref>)
    requires out <= share <= refs
    ensures refs + into - out == refs - share + (share - out + into)
  {
  }

  /** Counters and flags of an exec are not references. */
  lemma ExecCallKeepsCounts(w: State, e: nat, state: ExecState)
    requires w.refs == Expected(w) && e in w.execs
    requires state.nodes == w.execs[e].state.nodes && state.plan == w.execs[e].state.plan
    ensures w.refs == Expected(PutExec(w, e, state))
  {
    hide Expected;
    ExecShareIsCounted(w, e);
    SameShare(ExecRefs(w.execs[e].state), w.refs);
    CountsOfExecCall(w, e, state, w.refs);
    assert PutExec(w, e, state).(refs := w.refs) == PutExec(w, e, state);
  }

  lemma LaunchKeepsCounts(w: State, e: nat, l: nat, launch: LaunchRecord, state: ExecState)
    requires w.refs == Expected(w) && e in w.execs && l !in w.launches
    requires state.nodes == w.execs[e].state.nodes && state.plan == w.execs[e].state.plan
    ensures w.refs + LaunchRefs(launch)
         == Expected(PutExec(w, e, state).(launches := w.launches[l := launch], refs := w.refs + LaunchRefs(launch)))
  {
    hide LaunchRefs, ExecRefs;
    ExecCallKeepsCounts(w, e, state);
    TotalAdd(w.launches, LaunchRefs, l, launch);
  }

  lemma CompletedKeepsCounts(w: State, l: nat)
    requires w.refs == Expected(w) && l in w.launches
    ensures w.refs == Expected(w.(launches := w.launches[l := w.launches[l].(completed := true)]))
  {
    hide HeldRefs, GraphRefs, RecordRefs;
    TotalUpdate(w.launches, LaunchRefs, l, w.launches[l].(completed := true));
    SameShare(LaunchRefs(w.launches[l]), Total(w.launches, LaunchRefs));
  }

  lemma SynchronizeKeepsCounts(w: State, l: nat)
    requires w.refs == Expected(w) && l in w.launches
    ensures AfterSynchronize(w, l).refs == Expected(AfterSynchronize(w, l))
  {
    hide Expected, ExecRefs;
    var launch := w.launches[l];
    CompletedKeepsCounts(w, l);
    if launch.exec in w.execs {
      ExecCallKeepsCounts(w.(launches := w.launches[l := launch.(completed := true)]), launch.exec,
                          AfterComplete(w.execs[launch.exec].state));
    }
  }

  lemma DestroyGraphKeepsCounts(w: State, g: nat)
    requires w.refs == Expected(w) && g in w.graphs
    ensures w.refs - GraphRefs(w.graphs[g])
         == Expected(w.(graphs := w.graphs - {g}, refs := w.refs - GraphRefs(w.graphs[g])))
  {
    hide GraphRefs;
    TotalDrop(w.graphs, GraphRefs, g);
  }

  lemma DestroyExecKeepsCounts(w: State, e: nat)
    requires w.refs == Expected(w) && e in w.execs
    ensures w.refs - RecordRefs(w.execs[e])
         == Expected(w.(execs := w.execs - {e}, refs := w.refs - RecordRefs(w.execs[e])))
  {
    hide RecordRefs;
    TotalDrop(w.execs, RecordRefs, e);
  }

  lemma DestroyLaunchKeepsCounts(w: State, l: nat)
    requires w.refs == Expected(w) && l in w.launches
    ensures w.refs - LaunchRefs(w.launches[l])
         == Expected(w.(launches := w.launches[l := w.launches[l].(alive := false)],
                        refs := w.refs - LaunchRefs(w.launches[l])))
  {
    hide HeldRefs;
    TotalUpdate(w.launches, LaunchRefs, l, w.launches[l].(alive := false));
  }

  lemma CreateGraphKeepsCounts(w: State, g: nat)
    requires w.refs == Expected(w) && g !in w.graphs
    ensures w.refs == Expected(PutGraph(w, g, GraphState([], [], None)))
  {
    var fresh_ := GraphState([], [], None);
    assert GraphRefs(fresh_) == multiset{};
    TotalAdd(w.graphs, GraphRefs, g, fresh_);
  }

  lemma InstantiateKeepsCounts(w: State, e: nat, x: ExecRecord)
    requires w.refs == Expected(w) && e !in w.execs
    ensures w.refs + ExecRefs(x.state)
         == Expected(w.(execs := w.execs[e := x], refs := w.refs + ExecRefs(x.state)))
  {
    hide ExecRefs;
    TotalAdd(w.execs, RecordRefs, e, x);
  }

  lemma HandleKeepsCounts(w: State, r: Ref)
    requires w.refs == Expected(w)
    ensures w.refs + multiset{r} == Expected(w.(refs := w.refs + multiset{r}, handles := w.handles + multiset{r}))
    ensures r in w.handles ==>
              w.refs - multiset{r} == Expected(w.(refs := w.refs - multiset{r}, handles := w.handles - multiset{r}))
  {
  }

  lemma FailuresHoldNothing(w: State, failures: seq<Failure>)
    ensures Expected(w.(failures := failures)) == Expected(w)
  {
  }

  lemma GraphCallKeepsCounts(w: State, c: Call)
    requires w.refs == Expected(w) && GraphsOk(w) && Enabled(w, c) && (ChangesGraph(c) || c.DestroyGraph?)
    ensures Apply(w, c).refs == Expected(Apply(w, c))
  {
    hide Expected, GraphsOk, Enabled, Apply, GraphRefs;
    if c.CreateGraph? {
      CreateGraphIs(w, c.g);
      CreateGraphKeepsCounts(w, c.g);
    } else if c.DestroyGraph? {
      DestroyGraphIs(w, c.g);
      DestroyGraphKeepsCounts(w, c.g);
    } else if c.AddNode? {
      AddNodeKeepsCounts(w, c.g, c.work);
    } else if c.AddEdge? {
      AddEdgeKeepsCounts(w, c.g, c.before, c.after);
    } else if c.DeclareFlags? {
      DeclareFlagsKeepsCounts(w, c.g, c.index, c.flags);
    } else {
      AttachArenaKeepsCounts(w, c.g, c.arena);
    }
  }

  lemma CreateGraphIs(w: State, g: nat)
    requires Enabled(w, CreateGraph(g))
    ensures g !in w.graphs && Apply(w, CreateGraph(g)) == PutGraph(w, g, GraphState([], [], None))
  {
    hide Acceptable, FlagsOk, Instantiated, LaunchFails, FailureOf, AfterPatch, RefsAfterPatch, AfterSynchronize;
  }

  lemma DestroyGraphIs(w: State, g: nat)
    requires Enabled(w, DestroyGraph(g))
    ensures g in w.graphs
    ensures Apply(w, DestroyGraph(g)) == w.(graphs := w.graphs - {g}, refs := w.refs - GraphRefs(w.graphs[g]))
  {
    hide Acceptable, FlagsOk, Instantiated, LaunchFails, FailureOf, AfterPatch, RefsAfterPatch, AfterSynchronize;
  }

  lemma HandleCallKeepsCounts(w: State, c: Call)
    requires w.refs == Expected(w) && Enabled(w, c) && (c.CreateObject? || c.DropHandle?)
    ensures Apply(w, c).refs == Expected(Apply(w, c))
  {
    hide Acceptable, FlagsOk, Instantiated, LaunchFails, FailureOf, AfterPatch, RefsAfterPatch, AfterSynchronize;
    HandleKeepsCounts(w, c.ref);
  }

  lemma ExecCallKeepsRefCounts(w: State, c: Call)
    requires w.refs == Expected(w) && Enabled(w, c) && StepsExec(c)
    ensures Apply(w, c).refs == Expected(Apply(w, c))
  {
    hide Acceptable, FlagsOk, Instantiated, LaunchFails, FailureOf, AfterPatch, RefsAfterPatch, AfterSynchronize;
    hide Expected, GraphOk, GraphRefs, ExecRefs, LaunchRefs, LaunchOf, WorkSlots, WorkRefs, WithNode, Stored,
         AfterLaunch;
    match c
    case PatchExec(e, id, p) => PatchKeepsCounts(w, e, id, p);
    case SetOptimization(e, enabled) => SetKeepsCounts(w, e, enabled);
    case FailLaunch(e, faults) =>
      var point := FailureOf(w.execs[e].state, faults).point;
      FailKeepsCounts(w, e, point);
      FailuresHoldNothing(PutExec(w, e, AfterFailedLaunch(w.execs[e].state, point)), Apply(w, c).failures);
    case LaunchExec(e, l) => LaunchStepKeepsCounts(w, e, l);
  }

  lemma SetKeepsCounts(w: State, e: nat, enabled: set<OptFlag>)
    requires w.refs == Expected(w) && e in w.execs
    ensures w.refs == Expected(PutExec(w, e, AfterSetOptimization(w.execs[e].state, enabled)))
  {
    hide Expected, ExecRefs;
    ExecCallKeepsCounts(w, e, AfterSetOptimization(w.execs[e].state, enabled));
  }

  lemma FailKeepsCounts(w: State, e: nat, point: FailurePoint)
    requires w.refs == Expected(w) && e in w.execs
    ensures w.refs == Expected(PutExec(w, e, AfterFailedLaunch(w.execs[e].state, point)))
  {
    hide Expected, ExecRefs, LeftIcb;
    ExecCallKeepsCounts(w, e, AfterFailedLaunch(w.execs[e].state, point));
  }

  lemma LaunchStepKeepsCounts(w: State, e: nat, l: nat)
    requires w.refs == Expected(w) && e in w.execs && l !in w.launches
    ensures var x := LaunchOf(e, w.execs[e]);
      w.refs + LaunchRefs(x)
        == Expected(PutExec(w, e, AfterLaunch(w.execs[e].state))
                      .(launches := w.launches[l := x], refs := w.refs + LaunchRefs(x)))
  {
    hide Expected, ExecRefs, LaunchedIcb, LaunchOf, LaunchRefs;
    LaunchKeepsCounts(w, e, l, LaunchOf(e, w.execs[e]), AfterLaunch(w.execs[e].state));
  }

  /** Reference counts stay exact over every call. */
  lemma CallKeepsCounts(w: State, c: Call)
    requires w.refs == Expected(w) && GraphsOk(w) && Enabled(w, c)
    ensures Apply(w, c).refs == Expected(Apply(w, c))
  {
    hide Expected, GraphsOk, Enabled, Apply, LaunchRefs, RecordRefs, ExecRefs, AfterSynchronize;
    if StepsExec(c) {
      ExecCallKeepsRefCounts(w, c);
    } else if ChangesGraph(c) || c.DestroyGraph? {
      GraphCallKeepsCounts(w, c);
    } else if c.CreateObject? || c.DropHandle? {
      HandleCallKeepsCounts(w, c);
    } else if c.Instantiate? {
      InstantiateIs(w, c);
      InstantiateKeepsCounts(w, c.e, ExecRecord(c.made, w.graphs[c.g], c.order));
    } else if c.DestroyExec? {
      DestroyExecIs(w, c.e);
      DestroyExecKeepsCounts(w, c.e);
    } else if c.DestroyLaunch? {
      DestroyLaunchIs(w, c.l);
      DestroyLaunchKeepsCounts(w, c.l);
    } else {
      SynchronizeIs(w, c.l);
      SynchronizeKeepsCounts(w, c.l);
    }
  }

  // ---- graphs ----

  lemma PutGraphOk(w: State, g: nat, graph: GraphState)
    requires GraphsOk(w) && GraphOk(graph)
    ensures GraphsOk(PutGraph(w, g, graph))
  {
    hide GraphOk;
  }

  predicate ChangesGraph(c: Call) {
    c.CreateGraph? || c.AddNode? || c.AddEdge? || c.DeclareFlags? || c.AttachArena?
  }

  lemma OtherCallsKeepGraphs(w: State, c: Call)
    requires Enabled(w, c) && !ChangesGraph(c)
    ensures Apply(w, c).graphs == w.graphs || (c.DestroyGraph? && Apply(w, c).graphs == w.graphs - {c.g})
  {
    hide Acceptable, FlagsOk, Instantiated, LaunchFails, FailureOf, AfterPatch, RefsAfterPatch, AfterSynchronize;
  }

  /** The graph a call leaves in place of the one it works on. */
  ghost function GraphAfter(w: State, c: Call): GraphState
    requires Enabled(w, c) && ChangesGraph(c)
  {
    match c
    case CreateGraph(_) => GraphState([], [], None)
    case AddNode(g, work) => WithNode(w.graphs[g], Stored(work))
    case AddEdge(g, before, after) => WithEdge(w.graphs[g], before, after)
    case DeclareFlags(g, index, flags) => WithFlags(w.graphs[g], index, flags)
    case AttachArena(g, arena) => w.graphs[g].(arena := Some(arena))
  }

  lemma GraphCallIs(w: State, c: Call)
    requires Enabled(w, c) && ChangesGraph(c)
    ensures Apply(w, c).graphs == PutGraph(w, c.g, GraphAfter(w, c)).graphs
  {
    hide Acceptable, FlagsOk, Instantiated, LaunchFails, FailureOf, AfterPatch, RefsAfterPatch, AfterSynchronize;
    hide WithNode, WithEdge, WithFlags, Stored, WorkRefs, WorkSlots, ArenaRefs, PutExec;
  }

  lemma GraphAfterOk(w: State, c: Call)
    requires GraphsOk(w) && Enabled(w, c) && ChangesGraph(c)
    ensures GraphOk(GraphAfter(w, c))
  {
    hide GraphOk, Acceptable, FlagsOk, WithNode, WithEdge, WithFlags, Stored, Instantiated, LaunchFails, FailureOf,
         WorkSlots, WorkRefs, PatchRefs;
    if !c.CreateGraph? {
      GraphIn(w, c.g);
    }
    match c
    case AddNode(g, work) => WithNodeOk(w.graphs[g], work);
    case AddEdge(g, before, after) => WithEdgeOk(w.graphs[g], before, after);
    case DeclareFlags(g, index, flags) => WithFlagsOk(w.graphs[g], index, flags);
    case CreateGraph(g) => EmptyGraphOk();
    case AttachArena(g, arena) => ArenaKeepsGraphOk(w.graphs[g], arena);
  }

  lemma GraphCallsKeepGraphs(w: State, c: Call)
    requires GraphsOk(w) && Enabled(w, c) && ChangesGraph(c)
    ensures GraphsOk(Apply(w, c))
  {
    hide GraphOk, GraphsOk, Enabled, Apply, GraphAfter;
    GraphCallIs(w, c);
    GraphAfterOk(w, c);
    PutGraphOk(w, c.g, GraphAfter(w, c));
    GraphsOnly(PutGraph(w, c.g, GraphAfter(w, c)), Apply(w, c));
  }

  lemma GraphIn(w: State, g: nat)
    requires GraphsOk(w) && g in w.graphs
    ensures GraphOk(w.graphs[g])
  {
    hide GraphOk;
  }

  lemma GraphsOnly(w: State, v: State)
    requires GraphsOk(w) && v.graphs == w.graphs
    ensures GraphsOk(v)
  {
    hide GraphOk;
  }

  lemma CallKeepsGraphs(w: State, c: Call)
    requires GraphsOk(w) && Enabled(w, c)
    ensures GraphsOk(Apply(w, c))
  {
    hide GraphOk, Apply, Enabled;
    if ChangesGraph(c) {
      GraphCallsKeepGraphs(w, c);
    } else {
      OtherCallsKeepGraphs(w, c);
    }
  }

  lemma EmptyGraphOk()
    ensures GraphOk(GraphState([], [], None))
  {
  }

  lemma ArenaKeepsGraphOk(g: GraphState, arena: Arena)
    requires GraphOk(g)
    ensures GraphOk(g.(arena := Some(arena)))
  {
  }

  // ---- execs ----

  /** Whatever freezes an exec's instantiated part keeps it a descendant of its snapshot. */
  lemma FrozenKeepsSnapshot(x: ExecRecord, state: ExecState)
    requires SnapshotOk(x) && ExecFrozen(x.state, state)
    ensures SnapshotOk(x.(state := state))
  {
    hide GraphOk, IsSchedule, WorkFrozen;
    ScheduleIndices(x.order, x.source.edges, |x.source.nodes|);
    forall i | 0 <= i < |x.order|
      ensures DescendsFrom(x.source.nodes[x.order[i]], state.nodes[i])
    {
      var n := x.source.nodes[x.order[i]];
      assert DescendsFrom(n, x.state.nodes[i]) && NodeFrozen(x.state.nodes[i], state.nodes[i]);
      WorkFrozenTransitive(n.flags, n.work, x.state.nodes[i].work, state.nodes[i].work);
    }
  }

  lemma FreshSnapshotOk(g: GraphState, order: seq<nat>, device: nat, available: bool, creates: bool, made: ExecState)
    requires GraphOk(g) && Instantiated(g, order, device, available, creates, made)
    ensures SnapshotOk(ExecRecord(made, g, order)) && ExecOk(made)
  {
    hide GraphOk, WorkFrozen, Requirements, RequirementsOk, Fits, BuiltIcb, ExecOk;
    InstantiatedOk(g, order, device, available, creates, made);
    forall i | 0 <= i < |order|
      ensures DescendsFrom(g.nodes[order[i]], made.nodes[i])
    {
      assert IsCloneOf(g.nodes[order[i]], made.plan.records, made.nodes[i]);
      WorkFrozenReflexive(g.nodes[order[i]].flags, g.nodes[order[i]].work);
    }
  }

  lemma ExecStepKeepsExecs(w: State, e: nat, op: ExecOp)
    requires ExecsOk(w) && e in w.execs
    ensures ExecsOk(PutExec(w, e, Step(w.execs[e].state, op)))
  {
    hide ExecOk, SnapshotOk, ExecFrozen, Step;
    StepKeepsOk(w.execs[e].state, op);
    FrozenKeepsSnapshot(w.execs[e], Step(w.execs[e].state, op));
  }

  lemma ExecsOnly(w: State, v: State)
    requires ExecsOk(w) && v.execs == w.execs
    ensures ExecsOk(v)
  {
    hide ExecOk, SnapshotOk;
  }

  lemma NewExecKeepsExecs(w: State, c: Call)
    requires GraphsOk(w) && ExecsOk(w) && Enabled(w, c) && c.Instantiate?
    ensures ExecsOk(Apply(w, c))
  {
    hide GraphOk, ExecOk, SnapshotOk, Instantiated, ExecRefs, Enabled, Apply;
    InstantiateIs(w, c);
    FreshSnapshotOk(w.graphs[c.g], c.order, c.device, c.available, c.creates, c.made);
  }

  lemma SynchronizeKeepsExecs(w: State, l: nat)
    requires ExecsOk(w) && l in w.launches
    ensures ExecsOk(AfterSynchronize(w, l))
  {
    hide ExecOk, SnapshotOk, AfterComplete;
    if w.launches[l].exec in w.execs {
      ExecStepKeepsExecs(w, w.launches[l].exec, OpComplete);
    }
  }

  lemma DestroyKeepsExecs(w: State, e: nat)
    requires ExecsOk(w) && Enabled(w, DestroyExec(e))
    ensures ExecsOk(Apply(w, DestroyExec(e)))
  {
    hide ExecOk, SnapshotOk, Apply, Enabled, RecordRefs;
    DestroyExecIs(w, e);
  }

  lemma CallKeepsExecs(w: State, c: Call)
    requires GraphsOk(w) && ExecsOk(w) && Enabled(w, c)
    ensures ExecsOk(Apply(w, c))
  {
    hide GraphsOk, ExecsOk, Enabled, Apply, Step, OpOf, AfterSynchronize;
    if StepsExec(c) {
      ExecCallSteps(w, c);
      ExecStepKeepsExecs(w, c.e, OpOf(w, c));
      ExecsOnly(PutExec(w, c.e, Step(w.execs[c.e].state, OpOf(w, c))), Apply(w, c));
    } else if c.Instantiate? {
      NewExecKeepsExecs(w, c);
    } else if c.Synchronize? {
      SynchronizeIs(w, c.l);
      SynchronizeKeepsExecs(w, c.l);
    } else if c.DestroyExec? {
      DestroyKeepsExecs(w, c.e);
    } else {
      OtherCallsKeepExecs(w, c);
      ExecsOnly(w, Apply(w, c));
    }
  }

  // ---- sound buffers ----

  lemma CloneRefsAreGraphRefs(
      g: GraphState, order: seq<nat>, device: nat, available: bool, creates: bool, made: ExecState, r: Ref)
    requires Instantiated(g, order, device, available, creates, made) && r in ExecRefs(made)
    ensures r in GraphRefs(g)
  {
    hide WorkRefs, Requirements, RequirementsOk, Fits, BuiltIcb, WorksRefs;
    if r in WorksRefs(ExecWorks(made.nodes)) {
      InWorksRefs(ExecWorks(made.nodes), r);
      var i :| 0 <= i < |made.nodes| && r in WorkRefs(ExecWorks(made.nodes)[i]);
      assert IsCloneOf(g.nodes[order[i]], made.plan.records, made.nodes[i]);
      assert GraphWorks(g.nodes)[order[i]] == made.nodes[i].work;
      InWorksRefs(GraphWorks(g.nodes), r);
    }
  }

  lemma ReboundRefsAreNamed(n: ExecNode, device: Option<nat>, p: Patch, r: Ref)
    requires p.PatchBuffer? && PatchedWork(n, device, p).Patched? && r in WorkRefs(PatchedWork(n, device, p).work)
    ensures r in WorkRefs(n.work) || r in PatchRefs(p)
  {
    hide ResourceOffsetAligned, ResourceRangeValid, HasRange, WorkRefs;
    var k := BindingFor(n.work.dispatch.buffers, p.index).value;
    RebindRefs(n.work.dispatch, k, Binding(p.index, p.buffer, p.offset));
  }

  lemma SameDispatchRefs(n: ExecNode, device: Option<nat>, p: Patch)
    requires (p.PatchGrid? || p.PatchScalar?) && PatchedWork(n, device, p).Patched?
    ensures WorkRefs(PatchedWork(n, device, p).work) == WorkRefs(n.work)
  {
    hide WorkRefs, DimsValid, DimsWithin;
    SameBuffersSameRefs(n.work, PatchedWork(n, device, p).work);
  }

  lemma TransferRefsAreNamed(n: ExecNode, device: Option<nat>, p: Patch, r: Ref)
    requires p.PatchCopy? || p.PatchFill? || p.PatchEvent?
    requires PatchedWork(n, device, p).Patched? && r in WorkSlots(PatchedWork(n, device, p).work)
    ensures r in WorkSlots(n.work) || r in PatchRefs(p)
  {
    hide WorkSlots, RangeValid;
    SlotsByKind(n.work);
    SlotsByKind(PatchedWork(n, device, p).work);
  }

  /** A patched node refers to what it did before and to what the patch names. */
  lemma PatchedRefsAreNamed(n: ExecNode, device: Option<nat>, p: Patch, r: Ref)
    requires PatchedWork(n, device, p).Patched? && r in WorkRefs(PatchedWork(n, device, p).work)
    ensures r in WorkRefs(n.work) || r in PatchRefs(p)
  {
    hide PatchedWork, PatchRefs, WorkSlots;
    if p.PatchBuffer? {
      ReboundRefsAreNamed(n, device, p, r);
    } else if p.PatchGrid? || p.PatchScalar? {
      SameDispatchRefs(n, device, p);
    } else {
      TransferRefsAreNamed(n, device, p, r);
    }
  }

  lemma HandlesAreCounted(w: State, r: Ref)
    requires w.refs == Expected(w) && r in w.handles
    ensures r in w.refs
  {
  }

  lemma PatchKeepsRefs(w: State, e: nat, id: NodeId, p: Patch, r: Ref)
    requires w.refs == Expected(w) && Enabled(w, PatchExec(e, id, p))
    requires r in RefsAfterPatch(w.execs[e].state, id, p, w.refs)
    ensures r in w.refs
  {
    hide PatchedWork, WorkRefs, PatchRefs, ExecRefs, Expected;
    var s := w.execs[e].state;
    ExecShareIsCounted(w, e);
    match PlanPatch(s, id, p)
    case Reject(_) =>
    case Change(k, work) =>
      PatchExchangesRefs(s, k, work);
      if r in WorkRefs(work) {
        PatchedRefsAreNamed(s.nodes[k], s.device, p, r);
      }
  }

  lemma LaunchHoldsNodesRefs(e: nat, x: ExecRecord)
    ensures LaunchRefs(LaunchOf(e, x)) <= ExecRefs(x.state)
  {
    hide WorksRefs, HeldRefs, LaunchSegments, ArenaRefs;
    HeldIsNodesRefs(x.state.nodes);
  }

  /** Calls that take references. */
  predicate Takes(c: Call) {
    c.CreateObject? || c.AddNode? || c.AttachArena? || c.Instantiate? || c.PatchExec? || c.LaunchExec?
  }

  lemma OtherCallsTakeNothing(w: State, c: Call)
    requires Enabled(w, c) && !Takes(c)
    ensures Apply(w, c).refs <= w.refs
  {
    hide Acceptable, FlagsOk, Instantiated, LaunchFails, FailureOf, AfterPatch, RefsAfterPatch, AfterSynchronize;
  }

  lemma GraphTakesLive(w: State, c: Call, r: Ref)
    requires Enabled(w, c) && (c.AddNode? || c.AttachArena?) && r in Apply(w, c).refs
    ensures r in w.refs
  {
    hide Acceptable, FlagsOk, Instantiated, LaunchFails, FailureOf, AfterPatch, RefsAfterPatch, AfterSynchronize;
  }

  lemma NewExecTakesLive(w: State, c: Call, r: Ref)
    requires w.refs == Expected(w) && Enabled(w, c) && c.Instantiate? && r in Apply(w, c).refs
    ensures r in w.refs
  {
    hide Expected, Instantiated, ExecRefs, GraphRefs, Enabled, Apply;
    InstantiateIs(w, c);
    GraphShareIsCounted(w, c.g);
    if r in ExecRefs(c.made) {
      CloneRefsAreGraphRefs(w.graphs[c.g], c.order, c.device, c.available, c.creates, c.made, r);
    }
  }

  lemma PatchTakesLive(w: State, e: nat, id: NodeId, p: Patch, r: Ref)
    requires w.refs == Expected(w) && Enabled(w, PatchExec(e, id, p)) && r in Apply(w, PatchExec(e, id, p)).refs
    ensures r in w.refs
  {
    hide Acceptable, FlagsOk, Instantiated, LaunchFails, FailureOf, AfterPatch, RefsAfterPatch, AfterSynchronize;
    hide Expected, GraphOk, GraphRefs, ExecRefs, LaunchRefs, LaunchOf, WorkSlots, WorkRefs, WithNode, Stored,
         AfterLaunch;
    PatchKeepsRefs(w, e, id, p, r);
  }

  lemma LaunchTakesLive(w: State, e: nat, l: nat, r: Ref)
    requires w.refs == Expected(w) && Enabled(w, LaunchExec(e, l)) && r in Apply(w, LaunchExec(e, l)).refs
    ensures r in w.refs
  {
    hide Acceptable, FlagsOk, Instantiated, LaunchFails, FailureOf, AfterPatch, RefsAfterPatch, AfterSynchronize;
    hide Expected, GraphOk, GraphRefs, ExecRefs, LaunchRefs, LaunchOf, WorkSlots, WorkRefs, WithNode, Stored,
         AfterLaunch;
    ExecShareIsCounted(w, e);
    LaunchHoldsNodesRefs(e, w.execs[e]);
  }

  /** Every call but creation takes references only to objects that were counted before. */
  lemma TakenRefsWereLive(w: State, c: Call, r: Ref)
    requires w.refs == Expected(w) && Enabled(w, c) && Takes(c) && !c.CreateObject?
    requires r in Apply(w, c).refs
    ensures r in w.refs
  {
    hide Expected, Enabled, Apply;
    if c.Instantiate? {
      NewExecTakesLive(w, c, r);
    } else if c.PatchExec? {
      PatchTakesLive(w, c.e, c.id, c.patch, r);
    } else if c.LaunchExec? {
      LaunchTakesLive(w, c.e, c.l, r);
    } else {
      GraphTakesLive(w, c, r);
    }
  }

  lemma CallKeepsRefs(w: State, c: Call)
    requires w.refs == Expected(w) && RefsOk(w) && Enabled(w, c)
    ensures RefsOk(Apply(w, c))
  {
    hide Expected, RefOk;
    if c.CreateObject? {
      CreatedRefIsSound(w, c);
    } else {
      hide Apply, Enabled;
      if Takes(c) {
        forall r | r in Apply(w, c).refs
          ensures r in w.refs
        {
          TakenRefsWereLive(w, c, r);
        }
      } else {
        OtherCallsTakeNothing(w, c);
      }
    }
  }

  lemma CreatedRefIsSound(w: State, c: Call)
    requires RefsOk(w) && Enabled(w, c) && c.CreateObject?
    ensures RefsOk(Apply(w, c))
  {
    hide RefOk;
  }

  // ---- launches in flight ----

  lemma OutstandingAdd(launches: map<nat, LaunchRecord>, l: nat, x: LaunchRecord, d: nat)
    requires l !in launches
    ensures |Outstanding(launches[l := x], d)|
         == |Outstanding(launches, d)| + (if x.exec == d && !x.completed then 1 else 0)
  {
    if x.exec == d && !x.completed {
      assert Outstanding(launches[l := x], d) == Outstanding(launches, d) + {l};
    } else {
      assert Outstanding(launches[l := x], d) == Outstanding(launches, d);
    }
  }

  lemma OutstandingComplete(launches: map<nat, LaunchRecord>, l: nat, d: nat)
    requires l in launches && !launches[l].completed
    ensures |Outstanding(launches[l := launches[l].(completed := true)], d)|
         == |Outstanding(launches, d)| - (if launches[l].exec == d then 1 else 0)
  {
    var after := launches[l := launches[l].(completed := true)];
    if launches[l].exec == d {
      assert Outstanding(launches, d) == Outstanding(after, d) + {l};
    } else {
      assert Outstanding(launches, d) == Outstanding(after, d);
    }
  }

  /** The guard against going below zero is never what stops a decrement. */
  lemma CompletingDecrements(w: State, l: nat)
    requires FlightsOk(w) && l in w.launches && !w.launches[l].completed
    ensures w.launches[l].exec in w.execs && w.execs[w.launches[l].exec].state.inFlight > 0
  {
    assert l in Outstanding(w.launches, w.launches[l].exec);
  }

  lemma SynchronizeKeepsFlights(w: State, l: nat)
    requires FlightsOk(w) && l in w.launches && w.launches[l].alive
    ensures FlightsOk(AfterSynchronize(w, l))
  {
    hide Outstanding;
    var launch := w.launches[l];
    if launch.segments != [] && !launch.completed {
      CompletingDecrements(w, l);
      forall d | d in w.execs
        ensures |Outstanding(w.launches[l := launch.(completed := true)], d)|
             == |Outstanding(w.launches, d)| - (if d == launch.exec then 1 else 0)
      {
        OutstandingComplete(w.launches, l, d);
      }
    }
  }

  lemma FlightsOnly(w: State, v: State)
    requires FlightsOk(w) && v.execs == w.execs && v.launches == w.launches
    ensures FlightsOk(v)
  {
    hide Outstanding;
  }

  lemma LaunchKeepsFlights(w: State, e: nat, l: nat)
    requires FlightsOk(w) && Enabled(w, LaunchExec(e, l))
    ensures FlightsOk(Apply(w, LaunchExec(e, l)))
  {
    hide LaunchSegments, Outstanding, Enabled, Apply, LaunchedIcb, AllBuffers, AllEvents;
    ExecCallSteps(w, LaunchExec(e, l));
    LaunchIs(w, LaunchExec(e, l));
    forall d | d in w.execs
      ensures |Outstanding(w.launches[l := LaunchOf(e, w.execs[e])], d)|
           == |Outstanding(w.launches, d)| + (if d == e then 1 else 0)
    {
      OutstandingAdd(w.launches, l, LaunchOf(e, w.execs[e]), d);
    }
  }

  lemma DestroyLaunchKeepsFlights(w: State, l: nat)
    requires FlightsOk(w) && Enabled(w, DestroyLaunch(l))
    ensures FlightsOk(Apply(w, DestroyLaunch(l)))
  {
    hide Enabled, Apply, LaunchRefs;
    DestroyLaunchIs(w, l);
    forall e | e in w.execs
      ensures Outstanding(w.launches[l := w.launches[l].(alive := false)], e) == Outstanding(w.launches, e)
    {
    }
  }

  lemma DestroyExecKeepsFlights(w: State, e: nat)
    requires FlightsOk(w) && Enabled(w, DestroyExec(e))
    ensures FlightsOk(Apply(w, DestroyExec(e)))
  {
    hide Enabled, Apply, RecordRefs, Outstanding;
    DestroyExecIs(w, e);
    IdleIsDone(w, e);
  }

  /** An exec that is not in flight has no launch to wait for. */
  lemma IdleIsDone(w: State, e: nat)
    requires FlightsOk(w) && e in w.execs && w.execs[e].state.inFlight == 0
    ensures forall l :: l in w.launches && w.launches[l].exec == e ==> w.launches[l].completed
  {
    forall l | l in w.launches && w.launches[l].exec == e
      ensures w.launches[l].completed
    {
      if !w.launches[l].completed {
        CompletingDecrements(w, l);
      }
    }
  }

  lemma NewExecKeepsFlights(w: State, c: Call)
    requires FlightsOk(w) && Enabled(w, c) && c.Instantiate?
    ensures FlightsOk(Apply(w, c))
  {
    hide Enabled, Apply, ExecRefs;
    InstantiateIs(w, c);
    InstantiatedIdle(w.graphs[c.g], c.order, c.device, c.available, c.creates, c.made);
    hide Instantiated;
    assert Outstanding(w.launches, c.e) == {};
  }

  lemma InstantiatedIdle(
      g: GraphState, order: seq<nat>, device: nat, available: bool, creates: bool, made: ExecState)
    requires Instantiated(g, order, device, available, creates, made)
    ensures made.inFlight == 0
  {
  }

  lemma ExecCallKeepsFlights(w: State, e: nat, state: ExecState)
    requires FlightsOk(w) && e in w.execs && state.inFlight == w.execs[e].state.inFlight
    ensures FlightsOk(PutExec(w, e, state))
  {
    hide Outstanding;
  }

  /** Only launches and completions move the count. */
  lemma StepKeepsFlight(s: ExecState, op: ExecOp)
    requires !op.OpLaunch? && !op.OpComplete?
    ensures Step(s, op).inFlight == s.inFlight
  {
    hide PatchedWork, LeftIcb;
  }

  lemma CallKeepsFlights(w: State, c: Call)
    requires FlightsOk(w) && Enabled(w, c)
    ensures FlightsOk(Apply(w, c))
  {
    hide Enabled, Apply, FlightsOk, Step, AfterSynchronize;
    if c.LaunchExec? {
      LaunchKeepsFlights(w, c.e, c.l);
    } else if c.Synchronize? {
      SynchronizeIs(w, c.l);
      SynchronizeKeepsFlights(w, c.l);
    } else if c.DestroyLaunch? {
      DestroyLaunchKeepsFlights(w, c.l);
    } else if c.DestroyExec? {
      DestroyExecKeepsFlights(w, c.e);
    } else if c.Instantiate? {
      NewExecKeepsFlights(w, c);
    } else if StepsExec(c) {
      OtherCallsKeepLaunches(w, c);
      ExecCallSteps(w, c);
      StepKeepsFlight(w.execs[c.e].state, OpOf(w, c));
      ExecCallKeepsFlights(w, c.e, Step(w.execs[c.e].state, OpOf(w, c)));
      FlightsOnly(PutExec(w, c.e, Step(w.execs[c.e].state, OpOf(w, c))), Apply(w, c));
    } else {
      OtherCallsKeepLaunches(w, c);
      OtherCallsKeepExecs(w, c);
      FlightsOnly(w, Apply(w, c));
    }
  }

  // ---- attempts ----

  lemma OtherCallsKeepFailures(w: State, c: Call)
    requires Enabled(w, c) && !c.FailLaunch?
    ensures Apply(w, c).failures == w.failures
  {
    hide Acceptable, FlagsOk, Instantiated, LaunchFails, FailureOf, AfterPatch, RefsAfterPatch, AfterSynchronize;
    if c.Synchronize? {
      SynchronizeKeepsFailures(w, c.l);
    }
  }

  lemma SynchronizeKeepsFailures(w: State, l: nat)
    requires l in w.launches
    ensures AfterSynchronize(w, l).failures == w.failures
  {
    hide AfterComplete;
  }

  lemma ExecIsSound(w: State, e: nat)
    requires w.refs == Expected(w) && ExecsOk(w) && RefsOk(w) && e in w.execs
    ensures RecordSound(w.execs[e])
  {
    hide Expected, ExecOk, SnapshotOk, WorkBuffers, WorkSlots, BufferOk, ExecRefs;
    ExecShareIsCounted(w, e);
    var s := w.execs[e].state;
    forall i, b | 0 <= i < |s.nodes| && b in WorkBuffers(s.nodes[i].work)
      ensures BufferOk(b)
    {
      SlotOfBuffer(s.nodes[i].work, b);
      NodeSlotIsCounted(s, i, BufferRef(b));
      assert RefOk(BufferRef(b));
    }
  }

  lemma NodeSlotIsCounted(s: ExecState, i: nat, r: Ref)
    requires i < |s.nodes| && r in WorkSlots(s.nodes[i].work)
    ensures r in ExecRefs(s)
  {
    hide WorkSlots;
    assert ExecWorks(s.nodes)[i] == s.nodes[i].work && r in WorkRefs(s.nodes[i].work);
    InWorksRefs(ExecWorks(s.nodes), r);
  }

  lemma CallKeepsAttempts(w: State, c: Call)
    requires w.refs == Expected(w) && ExecsOk(w) && RefsOk(w) && AttemptsOk(w) && Enabled(w, c)
    ensures AttemptsOk(Apply(w, c))
  {
    hide Enabled, Apply, Expected, ExecsOk, RefsOk, RecordSound, LaunchSegments, AllBuffers, AllEvents, LaunchFails,
         FailureOf;
    CallChangesLaunches(w, c);
    if c.FailLaunch? {
      FailIs(w, c.e, c.faults);
      ExecIsSound(w, c.e);
    } else {
      OtherCallsKeepFailures(w, c);
      if c.LaunchExec? {
        ExecIsSound(w, c.e);
      }
    }
  }

  // ---- what a launch in flight runs ----

  lemma NodesKeptOnly(w: State, v: State)
    requires NodesKept(w) && v.execs == w.execs && v.launches == w.launches
    ensures NodesKept(v)
  {
  }

  /** Nothing but a patch changes nodes, and no patch does while a launch is in flight. */
  lemma BusyStepKeepsNodes(s: ExecState, op: ExecOp)
    requires s.inFlight > 0 || !op.OpPatch?
    ensures Step(s, op).nodes == s.nodes && Step(s, op).plan == s.plan
  {
    hide LeftIcb, LaunchedIcb;
  }

  lemma ExecStepKeepsNodes(w: State, e: nat, op: ExecOp)
    requires NodesKept(w) && FlightsOk(w) && e in w.execs
    ensures NodesKept(PutExec(w, e, Step(w.execs[e].state, op)))
  {
    hide Step, FlightsOk;
    forall l | l in w.launches && !w.launches[l].completed && w.launches[l].exec == e
      ensures Step(w.execs[e].state, op).nodes == w.execs[e].state.nodes
      ensures Step(w.execs[e].state, op).plan == w.execs[e].state.plan
    {
      CompletingDecrements(w, l);
      BusyStepKeepsNodes(w.execs[e].state, op);
    }
  }

  lemma LaunchKeepsNodes(w: State, e: nat, l: nat)
    requires NodesKept(w) && Enabled(w, LaunchExec(e, l))
    ensures NodesKept(Apply(w, LaunchExec(e, l)))
  {
    hide LaunchSegments, AllBuffers, AllEvents, Enabled, Apply, Step;
    ExecCallSteps(w, LaunchExec(e, l));
    LaunchIs(w, LaunchExec(e, l));
    BusyStepKeepsNodes(w.execs[e].state, OpLaunch);
  }

  lemma SynchronizeKeepsNodes(w: State, l: nat)
    requires NodesKept(w) && l in w.launches
    ensures NodesKept(AfterSynchronize(w, l))
  {
  }

  lemma DestroyExecKeepsNodes(w: State, e: nat)
    requires NodesKept(w) && FlightsOk(w) && Enabled(w, DestroyExec(e))
    ensures NodesKept(Apply(w, DestroyExec(e)))
  {
    hide Enabled, Apply, RecordRefs, FlightsOk;
    DestroyExecIs(w, e);
    IdleIsDone(w, e);
  }

  lemma CallKeepsNodes(w: State, c: Call)
    requires NodesKept(w) && FlightsOk(w) && Enabled(w, c)
    ensures NodesKept(Apply(w, c))
  {
    hide Enabled, Apply, FlightsOk, NodesKept, Step, AfterSynchronize;
    if c.LaunchExec? {
      LaunchKeepsNodes(w, c.e, c.l);
    } else if c.Synchronize? {
      SynchronizeIs(w, c.l);
      SynchronizeKeepsNodes(w, c.l);
    } else if c.DestroyLaunch? {
      DestroyLaunchKeepsNodes(w, c.l);
    } else if c.DestroyExec? {
      DestroyExecKeepsNodes(w, c.e);
    } else if c.Instantiate? {
      NewExecKeepsNodes(w, c);
    } else if StepsExec(c) {
      OtherCallsKeepLaunches(w, c);
      ExecCallSteps(w, c);
      ExecStepKeepsNodes(w, c.e, OpOf(w, c));
      NodesKeptOnly(PutExec(w, c.e, Step(w.execs[c.e].state, OpOf(w, c))), Apply(w, c));
    } else {
      OtherCallsKeepLaunches(w, c);
      OtherCallsKeepExecs(w, c);
      NodesKeptOnly(w, Apply(w, c));
    }
  }

  lemma DestroyLaunchKeepsNodes(w: State, l: nat)
    requires NodesKept(w) && Enabled(w, DestroyLaunch(l))
    ensures NodesKept(Apply(w, DestroyLaunch(l)))
  {
    hide Enabled, Apply, LaunchRefs;
    DestroyLaunchIs(w, l);
  }

  lemma NewExecKeepsNodes(w: State, c: Call)
    requires NodesKept(w) && Enabled(w, c) && c.Instantiate?
    ensures NodesKept(Apply(w, c))
  {
    hide Enabled, Apply, ExecRefs, Instantiated;
    InstantiateIs(w, c);
  }

  // ---- every run ----

  lemma CallKeepsInvariant(w: State, c: Call)
    requires Invariant(w) && Enabled(w, c)
    ensures Invariant(Apply(w, c))
  {
    hide Apply, Enabled, Expected, GraphsOk, ExecsOk, RefsOk, FlightsOk, AttemptsOk, NodesKept;
    CallKeepsCounts(w, c);
    CallKeepsGraphs(w, c);
    CallKeepsExecs(w, c);
    CallKeepsRefs(w, c);
    CallKeepsFlights(w, c);
    CallKeepsAttempts(w, c);
    CallKeepsNodes(w, c);
  }

  lemma EmptyIsOk()
    ensures Invariant(EMPTY)
  {
  }

  /** Every run, of any calls in any order, ends in a state that satisfies the invariant. */
  lemma {:induction false} RunsKeepInvariant(calls: seq<Call>)
    requires Legal(calls)
    ensures Invariant(After(calls))
    decreases |calls|
  {
    hide Invariant, Apply, Enabled;
    if |calls| == 0 {
      EmptyIsOk();
    } else {
      RunsKeepInvariant(calls[..|calls| - 1]);
      CallKeepsInvariant(After(calls[..|calls| - 1]), calls[|calls| - 1]);
    }
  }
}
