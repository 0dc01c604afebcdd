/** What the invariant means for callers: theorems about every run of the runtime. */
module Runs {
  import opened Prelude
  import opened Sums
  import opened Model
  import opened Validation
  import opened Topology
  import opened Planner
  import opened Builder
  import opened Commands
  import opened Exec
  import opened Bounds
  import opened Launching
  import Patching
  import Instantiation
  import opened World

  // ---- lifetimes ----

  /** Something live refers to the object: a caller's handle, or a slot of a graph, exec or launch. */
  ghost predicate IsHeld(w: State, r: Ref) {
    || r in w.handles
    || (exists g :: g in w.graphs && r in GraphRefs(w.graphs[g]))
    || (exists e :: e in w.execs && r in RecordRefs(w.execs[e]))
    || (exists l :: l in w.launches && r in LaunchRefs(w.launches[l]))
  }

  /**
   At the end of every run an object is live exactly when something live refers to it, and its count
   is the number of such references.
   */
  lemma ObjectsLiveWhileHeld(calls: seq<Call>, r: Ref)
    requires Legal(calls)
    ensures var w := After(calls);
      && (r in w.refs <==> IsHeld(w, r))
      && w.refs[r] == w.handles[r] + Total(w.graphs, GraphRefs)[r] + Total(w.execs, RecordRefs)[r]
                    + Total(w.launches, LaunchRefs)[r]
  {
    hide After, Legal, GraphRefs, RecordRefs, LaunchRefs, GraphsOk, ExecsOk, RefsOk, FlightsOk, AttemptsOk,
         NodesKept, Total;
    RunsKeepInvariant(calls);
    var w := After(calls);
    InTotal(w.graphs, GraphRefs, r);
    InTotal(w.execs, RecordRefs, r);
    InTotal(w.launches, LaunchRefs, r);
  }

  /** What a node of a live exec refers to, patched or not, is live and a sound buffer. */
  lemma ExecNodesReferToLiveObjects(calls: seq<Call>, e: nat, i: nat, r: Ref)
    requires Legal(calls) && e in After(calls).execs
    requires i < |After(calls).execs[e].state.nodes| && r in WorkSlots(After(calls).execs[e].state.nodes[i].work)
    ensures r in After(calls).refs && RefOk(r)
  {
    hide After, Legal, Expected, GraphsOk, ExecsOk, FlightsOk, AttemptsOk, NodesKept, WorkSlots, RefOk, ExecRefs;
    RunsKeepInvariant(calls);
    var w := After(calls);
    ExecShareIsCounted(w, e);
    NodeSlotIsCounted(w.execs[e].state, i, r);
  }

  /** What a launch retained stays live until the launch is destroyed, even past its exec. */
  lemma LaunchesKeepObjectsLive(calls: seq<Call>, l: nat, b: Buffer)
    requires Legal(calls) && l in After(calls).launches && After(calls).launches[l].alive
    requires b in After(calls).launches[l].buffers
    ensures BufferRef(b) in After(calls).refs
  {
    hide After, Legal, Expected, GraphsOk, ExecsOk, FlightsOk, AttemptsOk, NodesKept, RefsOk;
    RunsKeepInvariant(calls);
    var w := After(calls);
    LaunchShareIsCounted(w, l);
    var k :| 0 <= k < |w.launches[l].buffers| && w.launches[l].buffers[k] == b;
    assert BufferSlots(w.launches[l].buffers)[k] == BufferRef(b);
  }

  // ---- execs over runs ----

  lemma ReachedExecIsOk(calls: seq<Call>, e: nat)
    requires Legal(calls) && e in After(calls).execs
    ensures ExecOk(After(calls).execs[e].state) && SnapshotOk(After(calls).execs[e])
  {
    hide After, Legal, Expected, GraphsOk, RefsOk, FlightsOk, AttemptsOk, NodesKept, ExecOk, SnapshotOk;
    RunsKeepInvariant(calls);
  }

  /**
   However an exec was patched, its nodes are those of the graph it was made from, in schedule order,
   with nothing changed but fields declared patchable then; its workspace plan is the original one.
   */
  lemma ExecsStayTrueToTheirGraph(calls: seq<Call>, e: nat, i: nat)
    requires Legal(calls) && e in After(calls).execs && i < |After(calls).execs[e].state.nodes|
    ensures var x := After(calls).execs[e];
      && IsSchedule(x.order, x.source.edges, |x.source.nodes|)
      && |x.order| == |x.state.nodes|
      && DescendsFrom(x.source.nodes[x.order[i]], x.state.nodes[i])
      && x.state.plan == PlanFor(Requirements(x.source.nodes, x.order), x.source.arena)
  {
    hide After, Legal, ExecOk, GraphOk, IsSchedule, WorkFrozen, Requirements;
    ReachedExecIsOk(calls, e);
    ScheduleBounds(After(calls).execs[e].order, After(calls).execs[e].source);
  }

  /**
   Execs run in order of depth: whatever path of dependencies leads to a node, one at least as long leads
   to every node that comes later.
   */
  lemma ExecsAreDepthSorted(calls: seq<Call>, e: nat, i: nat, j: nat, p: seq<nat>) returns (q: seq<nat>)
    requires Legal(calls) && e in After(calls).execs && i < j < |After(calls).execs[e].order|
    requires IsPath(After(calls).execs[e].source.edges, p) && p[|p| - 1] == After(calls).execs[e].order[i]
    ensures var x := After(calls).execs[e];
      IsPath(x.source.edges, q) && q[|q| - 1] == x.order[j] && |p| <= |q|
  {
    hide After, Legal, ExecOk, GraphOk, IsSchedule, IsDepthSorted, Requirements, RequirementsOk, Fits, PlanFor,
         DescendsFrom, IsPath;
    ReachedExecIsOk(calls, e);
    var x := After(calls).execs[e];
    q := SortedByDepth(x.order, x.source.edges, |x.source.nodes|, i, j, p);
  }

  /**
   What the counters of a reachable exec say after its next launch: every group was used or counted as a
   fallback, and it was used exactly when there is a recording and the optimization is on.
   */
  lemma CountersAreTruthful(calls: seq<Call>, e: nat)
    requires Legal(calls) && e in After(calls).execs && After(calls).execs[e].state.nodes != []
    ensures var s := After(calls).execs[e].state;
      var icb := AfterLaunch(s).icb;
      && icb.used + icb.fallback == icb.planned == 1
      && (icb.used == 1 <==> s.icb.commands.Some? && UseIcb in s.icb.enabled)
      && (icb.reason == NoFallback <==> icb.used == 1)
  {
    hide After, Legal, SnapshotOk, NodeOk, SliceOk, PlanOk, RecordingOk, LaunchedIcb, Segments;
    ReachedExecIsOk(calls, e);
    CountersTellThePath(After(calls).execs[e].state);
  }

  lemma ScheduleBounds(order: seq<nat>, g: GraphState)
    requires IsSchedule(order, g.edges, |g.nodes|)
    ensures forall i :: 0 <= i < |order| ==> order[i] < |g.nodes|
  {
  }

  /** However a run went, an exec that holds a recording is the one frozen dispatch that may be recorded. */
  lemma RecordingsAreEligible(calls: seq<Call>, e: nat)
    requires Legal(calls) && e in After(calls).execs && After(calls).execs[e].state.icb.commands.Some?
    ensures var s := After(calls).execs[e].state; |s.nodes| == 1 && Recordable(s.nodes[0])
  {
    hide After, Legal, SnapshotOk, NodeOk, SliceOk, PlanOk, Recordable, CountersOk;
    ReachedExecIsOk(calls, e);
  }

  /** In every reachable state, replay and direct encoding commit the same command buffers. */
  lemma ReplayIsInvisible(calls: seq<Call>, e: nat, enabled: set<OptFlag>)
    requires Legal(calls) && e in After(calls).execs
    ensures var s := After(calls).execs[e].state;
      LaunchSegments(s) == LaunchSegments(s.(icb := s.icb.(enabled := enabled))) == Segments(s.nodes)
  {
    hide After, Legal, SnapshotOk, NodeOk, SliceOk, PlanOk, LaunchSegments, Segments, Encode;
    ReachedExecIsOk(calls, e);
    var s := After(calls).execs[e].state;
    ReplayAgrees(s);
    ReplayAgrees(s.(icb := s.icb.(enabled := enabled)));
  }

  /** The patch check for a declared range never fires in any run. */
  lemma DeclaredRangeRejectionNeverHappens(calls: seq<Call>, e: nat, id: NodeId, p: Patch)
    requires Legal(calls) && e in After(calls).execs
    ensures PlanPatch(After(calls).execs[e].state, id, p) != Reject(NoDeclaredRange)
  {
    hide After, Legal, ExecOk, SnapshotOk, PlanPatch;
    ReachedExecIsOk(calls, e);
    DeclaredRangeCheckIsUnreachable(After(calls).execs[e].state, id, p);
  }

  // ---- the commit log ----

  lemma IdentifierAtPosition(x: ExecRecord, i: nat)
    requires SnapshotOk(x) && i < |x.order|
    ensures x.order[i] < |x.source.nodes| && x.state.nodes[i].id == x.order[i] + 1
  {
    hide WorkFrozen, WorkOk, FlagsOk, Requirements;
    assert DescendsFrom(x.source.nodes[x.order[i]], x.state.nodes[i]);
  }

  lemma PathEndsInOrder(x: ExecRecord, p: seq<nat>) returns (i: nat, j: nat)
    requires GraphOk(x.source) && IsSchedule(x.order, x.source.edges, |x.source.nodes|)
    requires IsPath(x.source.edges, p) && |p| >= 2
    ensures i < j < |x.order| && x.order[i] == p[0] && x.order[j] == p[|p| - 1]
  {
    hide WorkOk, FlagsOk;
    var n := |x.source.nodes|;
    PathInRange(x.source.edges, n, p, 0);
    PathInRange(x.source.edges, n, p, |p| - 1);
    SelectionCovers(x.order, n);
    assert p[0] in x.order && p[|p| - 1] in x.order;
    i :| 0 <= i < n && x.order[i] == p[0];
    j :| 0 <= j < n && x.order[j] == p[|p| - 1];
    PathsPointForward(x.order, x.source.edges, n, p, i, j);
  }

  lemma WholeLog(s: ExecState)
    requires ExecOk(s)
    ensures Flatten(LaunchSegments(s)) == EncodeAll(s.nodes) && WellSegmented(LaunchSegments(s))
  {
    hide NodeOk, SliceOk, PlanOk, Encode, EncodeAll, Segments, Flatten, WellSegmented, LaunchSegments;
    ReplayAgrees(s);
    SegmentationPreservesMeaning(s.nodes);
  }

  lemma {:induction false} FlattenPart(log: seq<Segment>, whole: seq<Segment>)
    requires IsPartOf(log, whole)
    ensures Flatten(log) <= Flatten(whole)
    decreases |whole|
  {
    if |log| < |whole| {
      FlattenPart(log, whole[..|whole| - 1]);
    } else if |log| > 0 {
      FlattenPart(log[..|log| - 1], whole[..|whole| - 1]);
      FlattenSame(log[..|log| - 1], whole[..|whole| - 1]);
    }
  }

  lemma {:induction false} FlattenSame(log: seq<Segment>, whole: seq<Segment>)
    requires |log| == |whole| && forall k :: 0 <= k < |log| ==> log[k].commands == whole[k].commands
    ensures Flatten(log) == Flatten(whole)
  {
    if |log| > 0 {
      FlattenSame(log[..|log| - 1], whole[..|whole| - 1]);
    }
  }

  lemma WellSegmentedPart(log: seq<Segment>, whole: seq<Segment>)
    requires IsPartOf(log, whole) && WellSegmented(whole)
    ensures WellSegmented(log)
  {
    hide IsRaw;
  }

  /** A log, whole or cut short, is a front part of the nodes' commands, cut into sound command buffers. */
  lemma PartOfLog(s: ExecState, log: seq<Segment>)
    requires ExecOk(s) && IsPartOf(log, LaunchSegments(s))
    ensures Flatten(log) <= EncodeAll(s.nodes) && WellSegmented(log)
  {
    hide ExecOk, LaunchSegments, Flatten, WellSegmented, IsPartOf, EncodeAll;
    WholeLog(s);
    FlattenPart(log, LaunchSegments(s));
    WellSegmentedPart(log, LaunchSegments(s));
  }

  lemma PathOrdersLog(x: ExecRecord, log: seq<Segment>, p: seq<nat>, a: nat, b: nat)
    requires ExecOk(x.state) && SnapshotOk(x) && IsPath(x.source.edges, p) && |p| >= 2
    requires Flatten(log) <= EncodeAll(x.state.nodes) && a < |Flatten(log)| && b < |Flatten(log)|
    requires Flatten(log)[a].node == p[0] + 1 && Flatten(log)[b].node == p[|p| - 1] + 1
    ensures a < b
  {
    hide GraphOk, IsSchedule, IsDepthSorted, IsPath, DescendsFrom, NodeOk, SliceOk, PlanOk, IcbOk, Requirements,
         Flatten, EncodeAll;
    var i, j := PathEndsInOrder(x, p);
    IdentifierAtPosition(x, i);
    IdentifierAtPosition(x, j);
    CommandsFollowNodes(x.state.nodes, i, j, a, b);
  }

  /**
   Dependencies survive to the commit log: whenever a path of edges leads from one node of the
   graph to another, through nodes that encode commands or not, every command of the first precedes
   every command of the second in what a launch would commit.
   */
  lemma DependenciesHoldInCommitLog(calls: seq<Call>, e: nat, p: seq<nat>, a: nat, b: nat)
    requires Legal(calls) && e in After(calls).execs
    requires IsPath(After(calls).execs[e].source.edges, p) && |p| >= 2
    requires a < |Flatten(LaunchSegments(After(calls).execs[e].state))|
    requires b < |Flatten(LaunchSegments(After(calls).execs[e].state))|
    requires Flatten(LaunchSegments(After(calls).execs[e].state))[a].node == p[0] + 1
    requires Flatten(LaunchSegments(After(calls).execs[e].state))[b].node == p[|p| - 1] + 1
    ensures a < b
  {
    hide After, Legal, ExecOk, SnapshotOk, LaunchSegments, Flatten, EncodeAll, IsPath;
    ReachedExecIsOk(calls, e);
    var x := After(calls).execs[e];
    WholeLog(x.state);
    PathOrdersLog(x, LaunchSegments(x.state), p, a, b);
  }

  /** Tensor graphs stand alone in the log, with all raw work before them committed and waited on. */
  lemma CommitLogIsWellSegmented(calls: seq<Call>, e: nat)
    requires Legal(calls) && e in After(calls).execs
    ensures var s := After(calls).execs[e].state;
      WellSegmented(LaunchSegments(s)) && Flatten(LaunchSegments(s)) == EncodeAll(s.nodes)
  {
    hide After, Legal, ExecOk, SnapshotOk, WellSegmented, LaunchSegments, Flatten, EncodeAll;
    ReachedExecIsOk(calls, e);
    WholeLog(After(calls).execs[e].state);
  }

  lemma NodeBuffersAreSound(calls: seq<Call>, e: nat, i: nat)
    requires Legal(calls) && e in After(calls).execs && i < |After(calls).execs[e].state.nodes|
    ensures WorkBuffersOk(After(calls).execs[e].state.nodes[i].work)
  {
    hide After, Legal, Expected, GraphsOk, ExecsOk, RefsOk, FlightsOk, AttemptsOk, NodesKept, WorkBuffersOk, ExecOk,
         SnapshotOk;
    RunsKeepInvariant(calls);
    ExecIsSound(After(calls), e);
  }

  /** Every command of a front part of a sound exec's log touches only bytes of the buffers it names. */
  lemma LogInBounds(x: ExecRecord, log: seq<Command>, k: nat)
    requires RecordSound(x) && log <= EncodeAll(x.state.nodes) && k < |log|
    ensures CommandInBounds(log[k], x.state.plan.totalSize)
  {
    hide SnapshotOk, EncodeAll, Encode, CommandInBounds, WorkBuffersOk, NodeOk, SliceOk, PlanOk, IcbOk, IdsOk;
    var i := CommandHasNode(x.state.nodes, k);
    EncodedInBounds(x.state.nodes[i], x.state.plan);
  }

  /** Every command any reachable exec would commit touches only bytes of the buffers it names. */
  lemma CommittedCommandsInBounds(calls: seq<Call>, e: nat, k: nat)
    requires Legal(calls) && e in After(calls).execs
    requires k < |Flatten(LaunchSegments(After(calls).execs[e].state))|
    ensures CommandInBounds(Flatten(LaunchSegments(After(calls).execs[e].state))[k],
                            After(calls).execs[e].state.plan.totalSize)
  {
    hide After, Legal, Expected, GraphsOk, ExecsOk, RefsOk, FlightsOk, AttemptsOk, NodesKept, LaunchSegments,
         Flatten, EncodeAll, CommandInBounds, RecordSound, ExecOk, SnapshotOk;
    RunsKeepInvariant(calls);
    ReachedExecIsOk(calls, e);
    ExecIsSound(After(calls), e);
    WholeLog(After(calls).execs[e].state);
    LogInBounds(After(calls).execs[e], Flatten(LaunchSegments(After(calls).execs[e].state)), k);
  }

  // ---- what was committed, by launches that were returned and by those that failed ----

  /** A launch that was attempted: one that was returned, or a failure. */
  datatype Attempt = Returned(l: nat) | Failing(k: nat)

  predicate WasMade(w: State, a: Attempt) {
    match a
    case Returned(l) => l in w.launches
    case Failing(k) => k < |w.failures|
  }

  /** The exec as it was launched. */
  function LaunchedFrom(w: State, a: Attempt): ExecRecord
    requires WasMade(w, a)
  {
    match a
    case Returned(l) => w.launches[l].from
    case Failing(k) => w.failures[k].from
  }

  function CommittedBy(w: State, a: Attempt): seq<Segment>
    requires WasMade(w, a)
  {
    match a
    case Returned(l) => w.launches[l].segments
    case Failing(k) => LeftLog(w.failures[k])
  }

  lemma AttemptIsSound(calls: seq<Call>, a: Attempt)
    requires Legal(calls) && WasMade(After(calls), a)
    ensures RecordSound(LaunchedFrom(After(calls), a))
    ensures IsPartOf(CommittedBy(After(calls), a), LaunchSegments(LaunchedFrom(After(calls), a).state))
  {
    hide After, Legal, Expected, GraphsOk, ExecsOk, RefsOk, FlightsOk, NodesKept, RecordSound, LaunchSegments,
         IsPartOf, FailureOf, LaunchFails;
    RunsKeepInvariant(calls);
    var w := After(calls);
    match a
    case Returned(l) => FrontIsPart(w.launches[l].segments, w.launches[l].segments);
    case Failing(k) => FailureIsPart(w.failures[k].from.state, w.failures[k].faults);
  }

  /** In whatever a launch committed, even one that failed, dependencies are kept. */
  lemma DependenciesHoldInEveryLog(calls: seq<Call>, t: Attempt, p: seq<nat>, a: nat, b: nat)
    requires Legal(calls) && WasMade(After(calls), t)
    requires IsPath(LaunchedFrom(After(calls), t).source.edges, p) && |p| >= 2
    requires a < |Flatten(CommittedBy(After(calls), t))| && b < |Flatten(CommittedBy(After(calls), t))|
    requires Flatten(CommittedBy(After(calls), t))[a].node == p[0] + 1
    requires Flatten(CommittedBy(After(calls), t))[b].node == p[|p| - 1] + 1
    ensures a < b
  {
    hide After, Legal, WasMade, LaunchedFrom, CommittedBy, ExecOk, SnapshotOk, LaunchSegments, Flatten, EncodeAll,
         IsPath, IsPartOf, WellSegmented, WorkBuffersOk;
    AttemptIsSound(calls, t);
    var x := LaunchedFrom(After(calls), t);
    PartOfLog(x.state, CommittedBy(After(calls), t));
    PathOrdersLog(x, CommittedBy(After(calls), t), p, a, b);
  }

  /** Whatever a launch committed is a front part of its nodes' commands, in sound command buffers. */
  lemma EveryLogIsWellSegmented(calls: seq<Call>, t: Attempt)
    requires Legal(calls) && WasMade(After(calls), t)
    ensures WellSegmented(CommittedBy(After(calls), t))
    ensures Flatten(CommittedBy(After(calls), t)) <= EncodeAll(LaunchedFrom(After(calls), t).state.nodes)
  {
    hide After, Legal, WasMade, LaunchedFrom, CommittedBy, ExecOk, SnapshotOk, LaunchSegments, Flatten, EncodeAll,
         IsPartOf, WellSegmented, WorkBuffersOk;
    AttemptIsSound(calls, t);
    PartOfLog(LaunchedFrom(After(calls), t).state, CommittedBy(After(calls), t));
  }

  /** Whatever a launch committed stays inside the buffers and the workspace it names. */
  lemma EveryLogIsInBounds(calls: seq<Call>, t: Attempt, k: nat)
    requires Legal(calls) && WasMade(After(calls), t) && k < |Flatten(CommittedBy(After(calls), t))|
    ensures CommandInBounds(Flatten(CommittedBy(After(calls), t))[k],
                            LaunchedFrom(After(calls), t).state.plan.totalSize)
  {
    hide After, Legal, WasMade, LaunchedFrom, CommittedBy, RecordSound, Flatten, EncodeAll, CommandInBounds,
         IsPartOf, WellSegmented, LaunchSegments;
    AttemptIsSound(calls, t);
    EveryLogIsWellSegmented(calls, t);
    LogInBounds(LaunchedFrom(After(calls), t), Flatten(CommittedBy(After(calls), t)), k);
  }

  /** Declared dispatch ranges of reachable execs lie in their Metal buffers. */
  lemma DeclaredRangesStayInBounds(calls: seq<Call>, e: nat, i: nat, k: nat)
    requires Legal(calls) && e in After(calls).execs && i < |After(calls).execs[e].state.nodes|
    requires After(calls).execs[e].state.nodes[i].work.Dispatch?
    requires k < |After(calls).execs[e].state.nodes[i].work.dispatch.resources|
    requires After(calls).execs[e].state.nodes[i].work.dispatch.resources[k].byteCount > 0
    ensures var d := After(calls).execs[e].state.nodes[i].work.dispatch;
      var b := BindingFor(d.buffers, d.resources[k].index);
      && b.Some?
      && BoundBuffers(d.buffers)[b.value].offset + d.resources[k].byteOffset + d.resources[k].byteCount
           <= BoundBuffers(d.buffers)[b.value].metal.length
  {
    hide After, Legal, SnapshotOk, WorkBuffersOk, NodeOk, SliceOk, PlanOk, IcbOk, IdsOk;
    ReachedExecIsOk(calls, e);
    NodeBuffersAreSound(calls, e, i);
    DeclaredRangesInBounds(After(calls).execs[e].state.nodes[i], k);
  }

  /**
   In every reachable exec an accepted contract is aligned on the Metal buffer if and only if the base
   offset of the wrapper bound at its index is.
   */
  lemma ContractsAlignIff(calls: seq<Call>, e: nat, i: nat, k: nat)
    requires Legal(calls) && e in After(calls).execs && i < |After(calls).execs[e].state.nodes|
    requires After(calls).execs[e].state.nodes[i].work.Dispatch?
    requires k < |After(calls).execs[e].state.nodes[i].work.dispatch.resources|
    ensures var d := After(calls).execs[e].state.nodes[i].work.dispatch;
      var r, b := d.resources[k], BindingFor(d.buffers, d.resources[k].index);
      && b.Some?
      && ((BoundBuffers(d.buffers)[b.value].offset + r.byteOffset) % EffectiveAlignment(r) == 0
          <==> d.buffers[b.value].buffer.byteOffset % EffectiveAlignment(r) == 0)
  {
    hide After, Legal, SnapshotOk, WorkBuffersOk, NodeOk, SliceOk, PlanOk, IcbOk, IdsOk;
    ReachedExecIsOk(calls, e);
    NodeBuffersAreSound(calls, e, i);
    AbsoluteAlignmentIff(After(calls).execs[e].state.nodes[i], k);
  }

  /** Workspace nodes use disjoint slices, of the sizes they asked for, of a workspace that was allocated. */
  lemma WorkspaceSlicesAreDisjoint(calls: seq<Call>, e: nat, i: nat, j: nat)
    requires Legal(calls) && e in After(calls).execs
    requires i < |After(calls).execs[e].state.nodes| && j < |After(calls).execs[e].state.nodes| && i != j
    requires IsWorkspace(After(calls).execs[e].state.nodes[i].work)
    requires IsWorkspace(After(calls).execs[e].state.nodes[j].work)
    ensures var s := After(calls).execs[e].state;
      && s.hasWorkspace
      && (s.nodes[i].offset + s.nodes[i].work.size <= s.nodes[j].offset
          || s.nodes[j].offset + s.nodes[j].work.size <= s.nodes[i].offset)
      && s.nodes[i].offset + s.nodes[i].work.size <= s.plan.totalSize
  {
    hide After, Legal, SnapshotOk, ExecOk;
    ReachedExecIsOk(calls, e);
    SlicesOfNodesDisjoint(After(calls).execs[e].state, i, j);
  }

  lemma ArenaOfExecIsSound(calls: seq<Call>, e: nat)
    requires Legal(calls) && e in After(calls).execs
    ensures var arena := After(calls).execs[e].state.plan.arena; arena.Some? ==> ArenaOk(arena.value)
  {
    hide After, Legal, Expected, GraphsOk, ExecsOk, FlightsOk, AttemptsOk, NodesKept, WorksRefs, ArenaOk;
    RunsKeepInvariant(calls);
    var w := After(calls);
    ExecShareIsCounted(w, e);
    var arena := w.execs[e].state.plan.arena;
    if arena.Some? {
      assert ArenaRef(arena.value) in ArenaRefs(arena);
      assert ArenaRef(arena.value) in ExecRefs(w.execs[e].state);
    }
  }

  lemma SliceIsALayoutRecord(reqs: seq<Requirement>, arena: Option<Arena>, n: ExecNode) returns (k: nat)
    requires SliceOk(PlanFor(reqs, arena), n) && RequirementOf(Node(n.id, n.flags, n.work)).Some?
    ensures k < |reqs| && Layout(reqs)[k].offset == n.offset
    ensures reqs[k].alignment == RequirementOf(Node(n.id, n.flags, n.work)).value.alignment
  {
    hide Layout, RequirementOf;
    var r := RequirementOf(Node(n.id, n.flags, n.work)).value;
    var record := Record(r.node, r.size, r.alignment, n.offset);
    k :| 0 <= k < |Layout(reqs)| && Layout(reqs)[k] == record;
    LayoutAt(reqs, k);
  }

  /** The slice of a workspace node lies at an aligned address above the base. */
  predicate SliceAlignedAt(base: nat, n: ExecNode) {
    n.work.Workspace? || n.work.WorkspaceFill? ==> n.work.alignment > 0 && (base + n.offset) % n.work.alignment == 0
  }

  /**
   Wherever Metal puts the workspace, if the base is aligned as the plan asks, or as an attached arena
   promises, every workspace node's slice is aligned as the node asked.
   */
  lemma WorkspaceAddressesAligned(calls: seq<Call>, e: nat, i: nat, big: nat, base: nat)
    requires Legal(calls) && e in After(calls).execs && i < |After(calls).execs[e].state.nodes|
    requires IsBaseAlignment(After(calls).execs[e].state.plan, big) && big > 0 && base % big == 0
    ensures SliceAlignedAt(base, After(calls).execs[e].state.nodes[i])
  {
    hide After, Legal, SnapshotOk, ExecOk, ArenaOk, IsBaseAlignment, SliceAlignedAt;
    ReachedExecIsOk(calls, e);
    ArenaOfExecIsSound(calls, e);
    NodeSliceIsAligned(After(calls).execs[e], i, big, base);
  }

  lemma NodeSliceIsAligned(x: ExecRecord, i: nat, big: nat, base: nat)
    requires SnapshotOk(x) && ExecOk(x.state) && (x.state.plan.arena.Some? ==> ArenaOk(x.state.plan.arena.value))
    requires i < |x.state.nodes|
    requires IsBaseAlignment(x.state.plan, big) && big > 0 && base % big == 0
    ensures SliceAlignedAt(base, x.state.nodes[i])
  {
    hide GraphOk, Requirements, RequirementsOk, Fits, ArenaOk, PlanOk, IcbOk, NodeOk, IdsOk, SliceOk, DescendsFrom,
         IsBaseAlignment, Layout, End, MaxAlignment, IsDepthSorted;
    var n := x.state.nodes[i];
    if RequirementOf(Node(n.id, n.flags, n.work)).Some? {
      var reqs := Requirements(x.source.nodes, x.order);
      var k := SliceIsALayoutRecord(reqs, x.source.arena, n);
      AbsoluteAddressesAligned(reqs, x.source.arena, big, base, k);
    }
  }

  // ---- launches in flight ----

  /**
   The in-flight count is the number of launches returned and not completed; hence a patch is
   accepted only when every launch of the exec has been completed.
   */
  lemma InFlightCountIsExact(calls: seq<Call>, e: nat, id: NodeId, p: Patch)
    requires Legal(calls) && e in After(calls).execs
    ensures After(calls).execs[e].state.inFlight == |Outstanding(After(calls).launches, e)|
    ensures PlanPatch(After(calls).execs[e].state, id, p).Change? ==>
              forall l :: l in After(calls).launches && After(calls).launches[l].exec == e ==>
                After(calls).launches[l].completed
  {
    hide After, Legal, Expected, GraphsOk, AttemptsOk, NodesKept, ExecsOk, RefsOk, PatchedWork;
    RunsKeepInvariant(calls);
    var w := After(calls);
    if PlanPatch(w.execs[e].state, id, p).Change? {
      forall l | l in w.launches && w.launches[l].exec == e
        ensures w.launches[l].completed
      {
        assert w.launches[l].completed || l in Outstanding(w.launches, e);
      }
    }
  }

  /** The first effective synchronize takes exactly one off the count; later ones change nothing. */
  lemma SynchronizeIsIdempotent(calls: seq<Call>, l: nat)
    requires Legal(calls) && l in After(calls).launches && After(calls).launches[l].alive
    ensures var w := After(calls);
      var e, w' := w.launches[l].exec, AfterSynchronize(w, l);
      && AfterSynchronize(w', l) == w'
      && (w.launches[l].segments != [] && !w.launches[l].completed ==>
            e in w.execs && w'.execs[e].state.inFlight + 1 == w.execs[e].state.inFlight)
  {
    hide After, Legal, Expected, GraphsOk, AttemptsOk, NodesKept, ExecsOk, RefsOk, Outstanding;
    RunsKeepInvariant(calls);
    if !After(calls).launches[l].completed {
      CompletingDecrements(After(calls), l);
    }
  }

  /**
   A launch can be completed exactly when its exec is empty or has a node that encodes something.
   An exec of barriers and workspace-only nodes commits nothing, so its launches stay in flight.
   */
  lemma CompletableIffSomethingEncoded(s: ExecState)
    requires ExecOk(s)
    ensures LaunchSegments(s) != []
       <==> s.nodes == [] || exists i :: 0 <= i < |s.nodes| && !EncodesNothing(s.nodes[i].work)
  {
    hide NodeOk, SliceOk, PlanOk, Encode, LaunchSegments, Segments;
    ReplayAgrees(s);
    CommitsSomething(s.nodes);
    EncodedSomethingIff(s.nodes);
  }

  lemma {:induction false} EncodedSomethingIff(nodes: seq<ExecNode>)
    ensures EncodeAll(nodes) != [] <==> exists i :: 0 <= i < |nodes| && !EncodesNothing(nodes[i].work)
  {
    hide Encode, EncodesNothing;
    if |nodes| > 0 {
      var n := |nodes| - 1;
      EncodedSomethingIff(nodes[..n]);
      EncodesNothingIff(nodes[n]);
      assert forall i :: 0 <= i < n ==> nodes[..n][i] == nodes[i];
    }
  }

  // ---- runs that go on ----

  /** A run that goes on was a run. */
  lemma {:induction false} RunSplits(calls: seq<Call>, more: seq<Call>)
    requires Legal(calls + more)
    ensures Legal(calls)
    decreases |more|
  {
    hide Enabled;
    var n := |more| - 1;
    if n < 0 {
      assert calls + more == calls;
    } else {
      assert (calls + more)[..|calls + more| - 1] == calls + more[..n];
      RunSplits(calls, more[..n]);
    }
  }

  /** The last call of a run that went on. */
  lemma LastStep(calls: seq<Call>, more: seq<Call>)
    requires Legal(calls + more) && |more| > 0
    ensures Legal(calls + more[..|more| - 1]) && Enabled(After(calls + more[..|more| - 1]), more[|more| - 1])
    ensures After(calls + more) == Apply(After(calls + more[..|more| - 1]), more[|more| - 1])
  {
    hide Enabled, Apply;
    var n := |more| - 1;
    assert (calls + more)[..|calls + more| - 1] == calls + more[..n];
    assert (calls + more)[|calls + more| - 1] == more[n];
  }

  lemma OneCallMore(calls: seq<Call>, c: Call)
    requires Legal(calls) && Enabled(After(calls), c)
    ensures Legal(calls + [c]) && After(calls + [c]) == Apply(After(calls), c)
  {
    hide Apply, Enabled;
    assert (calls + [c])[..|calls|] == calls;
  }

  /** The launch is past helping: not completed, and synchronize refuses it or can no longer be called. */
  predicate Stuck(w: State, l: nat) {
    l in w.launches && !w.launches[l].completed && (!w.launches[l].alive || w.launches[l].segments == [])
  }

  lemma CallKeepsStuck(w: State, c: Call, l: nat)
    requires Stuck(w, l) && Enabled(w, c)
    ensures Stuck(Apply(w, c), l) && Apply(w, c).launches[l] == w.launches[l].(alive := Apply(w, c).launches[l].alive)
  {
    hide Enabled, Apply, LaunchSegments;
    CallChangesLaunches(w, c);
  }

  lemma {:induction false} StaysStuck(calls: seq<Call>, more: seq<Call>, l: nat)
    requires Legal(calls + more) && Legal(calls) && Stuck(After(calls), l)
    ensures Stuck(After(calls + more), l)
    ensures After(calls + more).launches[l].exec == After(calls).launches[l].exec
    ensures After(calls + more).launches[l].from == After(calls).launches[l].from
    decreases |more|
  {
    hide Stuck, Apply, Enabled, After, Legal;
    if |more| == 0 {
      assert calls + more == calls;
    } else {
      LastStep(calls, more);
      StaysStuck(calls, more[..|more| - 1], l);
      CallKeepsStuck(After(calls + more[..|more| - 1]), more[|more| - 1], l);
      StuckLaunch(After(calls + more[..|more| - 1]), l);
      StuckLaunch(After(calls + more), l);
    }
  }

  lemma StuckLaunch(w: State, l: nat)
    requires Stuck(w, l)
    ensures l in w.launches && !w.launches[l].completed
  {
  }

  /**
   A launch that committed nothing, or was destroyed before it was completed, is never completed,
   however the run goes on: its exec stays in flight, rejects every patch, and cannot be destroyed.
   */
  lemma StuckLaunchBlocksPatches(calls: seq<Call>, more: seq<Call>, l: nat, id: NodeId, p: Patch)
    requires Legal(calls + more) && Legal(calls) && Stuck(After(calls), l)
    ensures var w := After(calls + more);
      && Stuck(w, l)
      && var e := After(calls).launches[l].exec;
         e in w.execs && w.execs[e].state.inFlight > 0 && PlanPatch(w.execs[e].state, id, p) == Reject(LaunchInFlight)
  {
    hide After, Legal, Expected, GraphsOk, AttemptsOk, NodesKept, ExecsOk, RefsOk, PatchedWork;
    StaysStuck(calls, more, l);
    RunsKeepInvariant(calls + more);
    CompletingDecrements(After(calls + more), l);
  }

  predicate HasCompleted(w: State, l: nat) {
    l in w.launches && w.launches[l].completed
  }

  /** A launch can still be completed exactly when it was not destroyed and committed something. */
  lemma CompletableIff(calls: seq<Call>, l: nat)
    requires Legal(calls) && l in After(calls).launches && !After(calls).launches[l].completed
    ensures (exists more :: Legal(calls + more) && HasCompleted(After(calls + more), l))
       <==> After(calls).launches[l].alive && After(calls).launches[l].segments != []
  {
    hide After, Legal, Apply, Enabled;
    var w := After(calls);
    if w.launches[l].alive && w.launches[l].segments != [] {
      SynchronizeCompletes(w, l);
      OneCallMore(calls, Synchronize(l));
      assert HasCompleted(After(calls + [Synchronize(l)]), l);
    } else if more :| Legal(calls + more) && HasCompleted(After(calls + more), l) {
      StaysStuck(calls, more, l);
      assert false;
    }
  }

  lemma SynchronizeCompletes(w: State, l: nat)
    requires l in w.launches && w.launches[l].alive && w.launches[l].segments != []
    ensures Enabled(w, Synchronize(l))
    ensures l in Apply(w, Synchronize(l)).launches && Apply(w, Synchronize(l)).launches[l].completed
  {
  }
}
