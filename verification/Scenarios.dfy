/** Short runs that show where a property one might expect of the runtime does not hold. */
module Scenarios {
  import opened Prelude
  import Bits
  import opened Sums
  import opened Model
  import opened Validation
  import opened Topology
  import opened Planner
  import opened Builder
  import opened Commands
  import opened Exec
  import opened Bounds
  import opened Instantiation
  import opened Launching
  import opened World
  import opened Runs
  import opened Retention

  // ---- a graph of one node, instantiated ----

  function OneNodeGraph(work: Work, flags: set<PatchFlag>): GraphState {
    GraphState([Node(1, flags, work)], [], None)
  }

  function OneNodeExec(work: Work, flags: set<PatchFlag>): ExecState {
    var nodes := [ExecNode(1, flags, work, ImplFor(work), 0)];
    ExecState(nodes, Some(0), EMPTY_PLAN, false, BuiltIcb(nodes, true, true), 0)
  }

  lemma OneNodeSchedule(order: seq<nat>, edges: seq<Edge>)
    requires |order| == 1 && order[0] == 0 && edges == []
    ensures IsSchedule(order, edges, 1)
  {
  }

  lemma OneNodeDepth(order: seq<nat>, edges: seq<Edge>, level: seq<nat>)
    requires |order| == 1 && order[0] == 0 && edges == [] && |level| == 1 && level[0] == 0
    ensures IsDepthSorted(order, edges, 1)
  {
    assert IsLevelling(level, edges, 1);
    assert SortedByLevel(order, level);
  }

  lemma NoRequirements(nodes: seq<Node>)
    requires |nodes| == 1 && RequirementOf(nodes[0]).None?
    ensures Requirements(nodes, [0]) == []
  {
    hide RequirementOf;
    assert [0][..0] == [];
    assert Requirements(nodes, []) == [];
  }

  lemma EmptyLayout()
    ensures PlanFor([], None) == EMPTY_PLAN && RequirementsOk([]) && Fits([], None)
  {
  }

  lemma OneNodeIsInstantiated(work: Work, flags: set<PatchFlag>)
    requires !IsWorkspace(work)
    ensures Instantiated(OneNodeGraph(work, flags), [0], 0, true, true, OneNodeExec(work, flags))
  {
    hide IsSchedule, IsDepthSorted, Requirements, RequirementsOk, Fits, PlanFor, BuiltIcb, ImplFor;
    OneNodeSchedule([0], []);
    OneNodeDepth([0], [], [0]);
    NoRequirements(OneNodeGraph(work, flags).nodes);
    EmptyLayout();
  }

  /** Nothing but objects and handles so far. */
  predicate OnlyObjects(w: State) {
    w.graphs == map[] && w.execs == map[] && w.launches == map[] && w.failures == []
  }

  lemma CreateStep(w: State)
    requires OnlyObjects(w)
    ensures Enabled(w, CreateGraph(0))
    ensures Apply(w, CreateGraph(0)) == w.(graphs := map[0 := GraphState([], [], None)])
  {
    hide Acceptable, Instantiated, LaunchFails, FailureOf, AfterSynchronize, AfterPatch;
  }

  lemma AddStep(w: State, work: Work)
    requires w.graphs == map[0 := GraphState([], [], None)]
    requires Acceptable(work) && Stored(work) == work && forall r :: r in WorkSlots(work) ==> r in w.refs
    ensures Enabled(w, AddNode(0, work))
    ensures Apply(w, AddNode(0, work))
         == w.(graphs := map[0 := OneNodeGraph(work, {})], refs := w.refs + WorkRefs(work))
  {
    hide Acceptable, Stored, WorkSlots, WorkRefs, Instantiated, LaunchFails, FailureOf, AfterSynchronize,
         AfterPatch;
    assert WithNode(GraphState([], [], None), work) == OneNodeGraph(work, {});
    assert w.graphs[0 := OneNodeGraph(work, {})] == map[0 := OneNodeGraph(work, {})];
  }

  lemma DeclareStep(w: State, work: Work, flags: set<PatchFlag>)
    requires w.graphs == map[0 := OneNodeGraph(work, {})] && FlagsOk(work, flags)
    ensures Enabled(w, DeclareFlags(0, 0, flags))
    ensures Apply(w, DeclareFlags(0, 0, flags)) == w.(graphs := map[0 := OneNodeGraph(work, flags)])
  {
    hide Acceptable, FlagsOk, Instantiated, LaunchFails, FailureOf, AfterSynchronize, AfterPatch;
    assert WithFlags(OneNodeGraph(work, {}), 0, flags) == OneNodeGraph(work, flags);
    assert w.graphs[0 := OneNodeGraph(work, flags)] == map[0 := OneNodeGraph(work, flags)];
  }

  function OneNodeInstantiate(work: Work, flags: set<PatchFlag>): Call {
    Instantiate(0, 0, 0, true, true, [0], OneNodeExec(work, flags))
  }

  lemma InstantiateStep(w: State, work: Work, flags: set<PatchFlag>)
    requires w.graphs == map[0 := OneNodeGraph(work, flags)]
    requires w.execs == map[] && w.launches == map[] && w.failures == []
    requires !IsWorkspace(work)
    ensures var c := OneNodeInstantiate(work, flags);
      var x := ExecRecord(OneNodeExec(work, flags), OneNodeGraph(work, flags), [0]);
      Enabled(w, c) && Apply(w, c) == w.(execs := map[0 := x], refs := w.refs + ExecRefs(x.state))
  {
    hide Instantiated, ExecRefs, OneNodeExec, OneNodeGraph, LaunchFails, FailureOf, AfterSynchronize, AfterPatch;
    OneNodeIsInstantiated(work, flags);
  }

  /** Builds a graph of one node and instantiates it. */
  lemma OneNodeRun(before: seq<Call>, work: Work, flags: set<PatchFlag>) returns (calls: seq<Call>)
    requires Legal(before) && OnlyObjects(After(before))
    requires Acceptable(work) && Stored(work) == work && FlagsOk(work, flags) && !IsWorkspace(work)
    requires forall r :: r in WorkSlots(work) ==> r in After(before).refs
    ensures Legal(calls) && |calls| == |before| + 4
    ensures var w := After(calls);
      && w.graphs == map[0 := OneNodeGraph(work, flags)]
      && w.execs == map[0 := ExecRecord(OneNodeExec(work, flags), OneNodeGraph(work, flags), [0])]
      && w.launches == map[] && w.failures == []
      && w.refs == After(before).refs + WorkRefs(work) + ExecRefs(OneNodeExec(work, flags))
  {
    hide After, Legal, Acceptable, Stored, FlagsOk, WorkSlots, WorkRefs, ExecRefs, OneNodeExec, OneNodeGraph,
         OneNodeInstantiate, Enabled, Apply;
    CreateStep(After(before));
    OneCallMore(before, CreateGraph(0));
    calls := before + [CreateGraph(0)];
    AddStep(After(calls), work);
    OneCallMore(calls, AddNode(0, work));
    calls := calls + [AddNode(0, work)];
    DeclareStep(After(calls), work, flags);
    OneCallMore(calls, DeclareFlags(0, 0, flags));
    calls := calls + [DeclareFlags(0, 0, flags)];
    InstantiateStep(After(calls), work, flags);
    OneCallMore(calls, OneNodeInstantiate(work, flags));
    calls := calls + [OneNodeInstantiate(work, flags)];
  }

  lemma EmptyRun()
    ensures Legal([]) && After([]) == EMPTY
  {
  }

  /** The run that creates one buffer. */
  lemma OneBufferRun(b: Buffer) returns (calls: seq<Call>)
    requires BufferOk(b)
    ensures Legal(calls) && OnlyObjects(After(calls))
    ensures After(calls).refs == After(calls).handles == multiset{BufferRef(b)}
  {
    hide After, Legal, Acceptable, Instantiated, LaunchFails, FailureOf, AfterSynchronize, AfterPatch;
    EmptyRun();
    OneCallMore([], CreateObject(BufferRef(b)));
    calls := [] + [CreateObject(BufferRef(b))];
  }

  lemma LaunchStep(w: State, l: nat)
    requires 0 in w.execs && l !in w.launches
    ensures Enabled(w, LaunchExec(0, l))
    ensures var v := Apply(w, LaunchExec(0, l));
      && v.execs == w.execs[0 := w.execs[0].(state := AfterLaunch(w.execs[0].state))]
      && v.launches == w.launches[l := LaunchOf(0, w.execs[0])] && v.failures == w.failures
  {
    hide Acceptable, Instantiated, LaunchFails, FailureOf, AfterSynchronize, AfterPatch, AfterLaunch, LaunchOf,
         LaunchRefs;
  }

  // ---- a launch that nobody can wait for ----

  /** A single barrier, launched: synchronize refuses the launch, and nothing ever completes it. */
  lemma BarrierRunIsStuck() returns (calls: seq<Call>)
    ensures Legal(calls) && Stuck(After(calls), 0)
    ensures var w := After(calls);
      && w.launches[0].alive && 0 in w.execs && w.execs[0].state.inFlight == 1
      && Enabled(w, Synchronize(0)) && Apply(w, Synchronize(0)) == w
  {
    hide After, Legal, Enabled, Apply, WorkRefs, ExecRefs;
    EmptyRun();
    assert Barrier.Barrier? && WorkSlots(Barrier) == [];
    var launchable := OneNodeRun([], Barrier, {});
    LaunchStep(After(launchable), 0);
    OneCallMore(launchable, LaunchExec(0, 0));
    calls := launchable + [LaunchExec(0, 0)];
    BarrierCommitsNothing();
    RefusedStep(After(calls), 0);
  }

  lemma BarrierCommitsNothing()
    ensures LaunchSegments(OneNodeExec(Barrier, {})) == []
    ensures AfterLaunch(OneNodeExec(Barrier, {})).inFlight == 1
  {
    SingleRawNode(OneNodeExec(Barrier, {}).nodes[0]);
  }

  lemma RefusedStep(w: State, l: nat)
    requires l in w.launches && w.launches[l].alive && w.launches[l].segments == []
    ensures Enabled(w, Synchronize(l)) && Apply(w, Synchronize(l)) == w
  {
    hide Acceptable, Instantiated, LaunchFails, FailureOf, AfterPatch;
  }

  // ---- a contract that is aligned in its wrapper only ----

  /** Eight bytes that start at the second byte of a Metal buffer. */
  const ODD_BUFFER := Buffer(0, 0, Metal(0, 9), 8, 1)

  const ODD_DISPATCH := DispatchWork(
    "library", "kernel", Dims(1, 1, 1), Dims(1, 1, 1), Dims(1, 1, 1),
    [Binding(0, ODD_BUFFER, 0)], [], [Resource(0, Read, 0, 4, 4)])

  lemma OddDispatchIsAccepted()
    ensures Acceptable(Dispatch(ODD_DISPATCH)) && Stored(Dispatch(ODD_DISPATCH)) == Dispatch(ODD_DISPATCH)
    ensures BufferOk(ODD_BUFFER) && WorkSlots(Dispatch(ODD_DISPATCH)) == [BufferRef(ODD_BUFFER)]
  {
    Bits.AlignmentValidIffPowerOfTwo(4);
    assert Bits.Pow2(2) == 4;
    assert ResourceOk(ODD_DISPATCH.resources[0], ODD_DISPATCH.buffers);
  }

  /** A contract that asks for alignment 4 is accepted and bound at an odd absolute offset. */
  lemma MisalignedRun() returns (calls: seq<Call>)
    ensures Legal(calls) && 0 in After(calls).execs
    ensures var nodes := After(calls).execs[0].state.nodes;
      && |nodes| == 1 && nodes[0].work == Dispatch(ODD_DISPATCH)
      && (BoundBuffers(ODD_DISPATCH.buffers)[0].offset + ODD_DISPATCH.resources[0].byteOffset)
           % EffectiveAlignment(ODD_DISPATCH.resources[0]) == 1
  {
    hide After, Legal, Enabled, Apply, WorkRefs, ExecRefs, Acceptable, Stored;
    OddDispatchIsAccepted();
    var created := OneBufferRun(ODD_BUFFER);
    calls := OneNodeRun(created, Dispatch(ODD_DISPATCH), {});
  }

  // ---- work whose buffer is gone ----

  const PLAIN_BUFFER := Buffer(0, 0, Metal(0, 8), 8, 0)

  const PLAIN_FILL := FillWork(PLAIN_BUFFER, 0, 8, 0)

  lemma FillRun(flags: set<PatchFlag>) returns (calls: seq<Call>)
    requires flags <= {FillValue}
    ensures Legal(calls)
    ensures var w := After(calls);
      && w.execs
           == map[0 := ExecRecord(OneNodeExec(Fill(PLAIN_FILL), flags), OneNodeGraph(Fill(PLAIN_FILL), flags), [0])]
      && w.launches == map[] && w.failures == []
  {
    hide After, Legal, Enabled, Apply, WorkRefs, ExecRefs;
    var created := OneBufferRun(PLAIN_BUFFER);
    FillSlots();
    calls := OneNodeRun(created, Fill(PLAIN_FILL), flags);
  }

  lemma FillSlots()
    ensures WorkSlots(Fill(PLAIN_FILL)) == [BufferRef(PLAIN_BUFFER)]
    ensures forall r :: r in WorkSlots(Fill(PLAIN_FILL)) ==> r == BufferRef(PLAIN_BUFFER)
  {
  }

  lemma FillSegments(flags: set<PatchFlag>)
    ensures var s := OneNodeExec(Fill(PLAIN_FILL), flags);
      && s.icb.commands.None? && s.icb.planned == 1 && s.icb.enabled == {UseIcb} && s.inFlight == 0
      && Encode(s.nodes[0]) != [] && Encode(s.nodes[0])[0].node == 1
      && LaunchSegments(s) == [Segment(Encode(s.nodes[0]), false)]
  {
    SingleRawNode(OneNodeExec(Fill(PLAIN_FILL), flags).nodes[0]);
  }

  /** What a launch of the single fill holds. */
  lemma FillHeld(flags: set<PatchFlag>)
    ensures var s := OneNodeExec(Fill(PLAIN_FILL), flags);
      BufferRef(PLAIN_BUFFER) in HeldRefs(AllBuffers(s.nodes), AllEvents(s.nodes))
  {
    var nodes := OneNodeExec(Fill(PLAIN_FILL), flags).nodes;
    assert nodes[..0] == [] && AllBuffers([]) == [];
    assert AllBuffers(nodes) == WorkBuffers(nodes[0].work) == [PLAIN_BUFFER];
    assert BufferSlots(AllBuffers(nodes))[0] == BufferRef(PLAIN_BUFFER);
  }

  lemma DestroyStep(w: State, l: nat)
    requires l in w.launches && w.launches[l].alive
    ensures Enabled(w, DestroyLaunch(l))
    ensures Apply(w, DestroyLaunch(l)).launches == w.launches[l := w.launches[l].(alive := false)]
  {
    hide Acceptable, Instantiated, LaunchFails, FailureOf, AfterPatch, LaunchRefs;
  }

  /**
   A launch destroyed before it was synchronized. Its fill is in flight and the launch holds nothing, but
   its exec is pinned: in every continuation the exec and the buffer it refers to are still there.
   */
  lemma LeakedExec() returns (calls: seq<Call>)
    ensures Legal(calls)
    ensures var w := After(calls);
      && InFlight(w, Returned(0), BufferRef(PLAIN_BUFFER)) && LaunchRefs(w.launches[0]) == multiset{}
      && 0 in Pinned(w) && BufferRef(PLAIN_BUFFER) in PinnedRefs(w)
    ensures forall more :: Legal(calls + more) ==>
              0 in After(calls + more).execs && BufferRef(PLAIN_BUFFER) in After(calls + more).refs
  {
    hide After, Legal, Enabled, Apply, LaunchOf, HeldRefs, PinnedRefs, Pinned, OneNodeExec;
    var launchable := FillRun({});
    LaunchStep(After(launchable), 0);
    OneCallMore(launchable, LaunchExec(0, 0));
    var launched := launchable + [LaunchExec(0, 0)];
    LaunchOfFill(After(launchable).execs[0]);
    DestroyStep(After(launched), 0);
    OneCallMore(launched, DestroyLaunch(0));
    calls := launched + [DestroyLaunch(0)];
    ReachedNodesKept(calls);
    FillIsPinned(After(calls));
    forall more | Legal(calls + more)
      ensures 0 in After(calls + more).execs && BufferRef(PLAIN_BUFFER) in After(calls + more).refs
    {
      PinnedIsNeverReleased(calls, more);
    }
  }

  lemma LaunchOfFill(x: ExecRecord)
    requires x.state == OneNodeExec(Fill(PLAIN_FILL), {})
    ensures var l := LaunchOf(0, x);
      && l.alive && !l.completed && l.exec == 0 && l.from == x && l.segments != []
      && BufferRef(PLAIN_BUFFER) in HeldRefs(l.buffers, l.events)
  {
    hide OneNodeExec, HeldRefs, LaunchSegments;
    FillSegments({});
    FillHeld({});
  }

  lemma FillIsPinned(w: State)
    requires NodesKept(w) && 0 in w.launches && w.launches[0].exec == 0
    requires !w.launches[0].alive && !w.launches[0].completed
    requires w.launches[0].from.state == OneNodeExec(Fill(PLAIN_FILL), {})
    ensures 0 in Pinned(w) && BufferRef(PLAIN_BUFFER) in PinnedRefs(w)
  {
    hide WorksRefs, Total;
    assert 0 in StuckLaunches(w);
    PinnedShare(w, 0);
    FillHeld({});
    HeldIsNodesRefs(w.launches[0].from.state.nodes);
    InTotal(PinnedExecs(w), RecordRefs, BufferRef(PLAIN_BUFFER));
  }

  // ---- work of a launch that failed ----

  /** The table of committed command buffers cannot grow when it is first used. */
  const FULL_TABLE: set<LaunchFault> := {CommittedTable(0)}

  /** With no memory for that table, a launch of the fill fails once the fill is committed. */
  lemma FillFailsLate(s: ExecState)
    requires s == OneNodeExec(Fill(PLAIN_FILL), {FillValue})
    ensures LaunchFails(s, FULL_TABLE)
    ensures FailureOf(s, FULL_TABLE) == Failed(WhileEncoding, LaunchSegments(s)) && LeavesWork(s, FULL_TABLE)
  {
    hide Encode;
    assert s.nodes[..0] == [] && s.nodes == [s.nodes[0]];
    assert !Launching.NodeFails(s.nodes, 0, FULL_TABLE);
    FillSegments({FillValue});
    SingleRawNode(s.nodes[0]);
  }

  lemma FailStep(w: State)
    requires 0 in w.execs && w.failures == [] && LaunchFails(w.execs[0].state, FULL_TABLE)
    ensures var c := FailLaunch(0, FULL_TABLE);
      && Enabled(w, c)
      && Apply(w, c).failures == [Failure(0, w.execs[0], FULL_TABLE)] && Apply(w, c).launches == w.launches
      && Apply(w, c).execs
           == PutExec(w, 0, AfterFailedLaunch(w.execs[0].state, FailureOf(w.execs[0].state, FULL_TABLE).point)).execs
  {
    hide Acceptable, Instantiated, AfterPatch, LaunchFails, FailureOf, AfterFailedLaunch, AfterSynchronize;
  }

  /**
   A launch that fails because that table cannot grow: the fill is running, its value can be patched
   meanwhile, and its buffer can be freed.
   */
  lemma FailedInFlight() returns (calls: seq<Call>)
    ensures Legal(calls) && 0 in After(calls).execs
    ensures var w := After(calls);
      && w.failures != [] && w.failures[0].faults == {CommittedTable(0)}
      && LeftBehind(w, 0) && AtWork(w, 0)
      && InFlight(w, Failing(0), BufferRef(PLAIN_BUFFER)) && !KeepsLive(calls, Failing(0), BufferRef(PLAIN_BUFFER))
      && PlanPatch(w.execs[0].state, 1, PatchFill(PLAIN_FILL.(value := 1))).Change?
    ensures !RetainsUntilCompletion(calls)
  {
    hide After, Legal, Enabled, Apply, OneNodeExec, LaunchSegments, KeepsLive, PlanPatch, LeftBehind, LogNames,
         AfterFailedLaunch, LaunchFails, FailureOf, LeavesWork, PinnedRefs;
    var launchable := FillRun({FillValue});
    var s := OneNodeExec(Fill(PLAIN_FILL), {FillValue});
    FillFailsLate(s);
    FailStep(After(launchable));
    OneCallMore(launchable, FailLaunch(0, FULL_TABLE));
    calls := launchable + [FailLaunch(0, FULL_TABLE)];
    FillIsLeftBehind(After(calls));
    FillCanBePatched(s);
    NothingIsPinned(After(calls));
    RetentionIff(calls, Failing(0), BufferRef(PLAIN_BUFFER));
    PromiseBroken(calls, 0, BufferRef(PLAIN_BUFFER));
  }

  lemma NothingIsPinned(w: State)
    requires w.launches == map[]
    ensures PinnedRefs(w) == multiset{}
  {
    assert StuckLaunches(w) == {};
    assert PinnedExecs(w) == map[];
  }

  lemma PromiseBroken(calls: seq<Call>, k: nat, r: Ref)
    requires Legal(calls) && InFlight(After(calls), Failing(k), r) && !KeepsLive(calls, Failing(k), r)
    ensures !RetainsUntilCompletion(calls)
  {
    hide After, Legal, InFlight, KeepsLive;
  }

  lemma FillIsLeftBehind(w: State)
    requires |w.failures| == 1 && w.failures[0].exec == 0 && w.failures[0].faults == FULL_TABLE
    requires w.failures[0].from.state == OneNodeExec(Fill(PLAIN_FILL), {FillValue})
    ensures LeftBehind(w, 0) && LogNames(w.failures[0], BufferRef(PLAIN_BUFFER))
  {
    hide OneNodeExec, LaunchSegments, Encode, LaunchFails, FailureOf, LeavesWork;
    FillSegments({FillValue});
    FillSlots();
    FillNode();
    var f := w.failures[0];
    FillFailsLate(f.from.state);
    assert !LeftLog(f)[0].waited;
    assert LeftLog(f)[0].commands[0] in LeftLog(f)[0].commands;
    assert HasCommandOf(LeftLog(f)[0], f.from.state.nodes[0].id);
  }

  lemma FillNode()
    ensures var s := OneNodeExec(Fill(PLAIN_FILL), {FillValue});
      |s.nodes| == 1 && s.nodes[0].id == 1 && s.nodes[0].work == Fill(PLAIN_FILL)
  {
  }

  lemma FillCanBePatched(s: ExecState)
    requires s == OneNodeExec(Fill(PLAIN_FILL), {FillValue})
    ensures PlanPatch(AfterFailedLaunch(s, WhileEncoding), 1, PatchFill(PLAIN_FILL.(value := 1))).Change?
  {
    hide BuiltIcb, LeftIcb;
    assert FindNode(s.nodes, 1) == Some(0);
  }

  // ---- a reason that is out of date ----

  lemma FlagStep(w: State, enabled: set<OptFlag>)
    requires 0 in w.execs && w.execs[0].state.inFlight == 0 && enabled <= {UseIcb}
    ensures Enabled(w, SetOptimization(0, enabled))
    ensures var s := w.execs[0].state;
      Apply(w, SetOptimization(0, enabled))
        == w.(execs := w.execs[0 := w.execs[0].(state := s.(icb := s.icb.(enabled := enabled)))])
  {
    hide Acceptable, Instantiated, LaunchFails, FailureOf, AfterSynchronize, AfterPatch;
  }

  lemma SynchronizeStep(w: State, l: nat)
    requires l in w.launches && w.launches[l].alive && !w.launches[l].completed && w.launches[l].segments != []
    requires w.launches[l].exec == 0 && 0 in w.execs && w.execs[0].state.inFlight > 0
    ensures Enabled(w, Synchronize(l))
    ensures var s := w.execs[0].state;
      && Apply(w, Synchronize(l)).execs == w.execs[0 := w.execs[0].(state := s.(inFlight := s.inFlight - 1))]
      && Apply(w, Synchronize(l)).launches == w.launches[l := w.launches[l].(completed := true)]
  {
    hide Acceptable, Instantiated, LaunchFails, FailureOf, AfterPatch;
  }

  /** Two launches, the first with the optimization off: the second, with it on, still reports it off. */
  lemma StaleReasonRun() returns (calls: seq<Call>)
    ensures Legal(calls) && 0 in After(calls).execs && 1 in After(calls).launches
    ensures var icb := After(calls).execs[0].state.icb; UseIcb in icb.enabled && icb.reason == Disabled
  {
    hide After, Legal, Enabled, Apply, LaunchOf, AfterLaunch, OneNodeExec;
    calls := FillRun({});
    var s := OneNodeExec(Fill(PLAIN_FILL), {});
    FillSegments({});
    FlagStep(After(calls), {});
    OneCallMore(calls, SetOptimization(0, {}));
    calls := calls + [SetOptimization(0, {})];
    var launched := After(calls).execs[0];
    LaunchStep(After(calls), 0);
    OneCallMore(calls, LaunchExec(0, 0));
    calls := calls + [LaunchExec(0, 0)];
    LaunchedOff(s, launched);
    SynchronizeStep(After(calls), 0);
    OneCallMore(calls, Synchronize(0));
    calls := calls + [Synchronize(0)];
    FlagStep(After(calls), {UseIcb});
    OneCallMore(calls, SetOptimization(0, {UseIcb}));
    calls := calls + [SetOptimization(0, {UseIcb})];
    LaunchStep(After(calls), 1);
    OneCallMore(calls, LaunchExec(0, 1));
    LaunchedOn(After(calls).execs[0].state);
    calls := calls + [LaunchExec(0, 1)];
  }

  lemma LaunchedOff(s: ExecState, x: ExecRecord)
    requires s == OneNodeExec(Fill(PLAIN_FILL), {})
    requires x.state == s.(icb := s.icb.(enabled := {}))
    ensures var off := s.(icb := s.icb.(enabled := {}));
      && LaunchOf(0, x).exec == 0 && LaunchOf(0, x).alive && !LaunchOf(0, x).completed
      && LaunchOf(0, x).segments != []
      && AfterLaunch(off).inFlight == 1 && AfterLaunch(off).icb.reason == Disabled
      && AfterLaunch(off).icb.commands.None? && AfterLaunch(off).icb.planned == 1
  {
    SingleRawNode(s.nodes[0]);
  }

  lemma LaunchedOn(s: ExecState)
    requires s.icb.reason == Disabled && s.icb.commands.None? && s.icb.planned == 1 && UseIcb in s.icb.enabled
    ensures AfterLaunch(s).icb.reason == Disabled && UseIcb in AfterLaunch(s).icb.enabled
  {
    StaleReasonIff(s.icb);
  }
}
