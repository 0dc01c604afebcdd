/**
 From a caller's request to what the GPU does: what was added to a graph reaches its execs, what a patch
 asked for reaches the next launch, and a launch does what its nodes say, in an order that respects every
 dependency. Theorems about every run of the runtime.
 */
module Outcomes {
  import opened Prelude
  import opened Model
  import opened Descriptors
  import opened Topology
  import opened Builder
  import opened Commands
  import opened Exec
  import opened Requests
  import opened Bounds
  import opened Effects
  import opened Patching
  import opened Launching
  import opened Instantiation
  import opened World
  import opened Runs

  // ---- graphs only grow ----

  /** Nodes keep their place, identifier and work; edges stay. */
  ghost predicate GrowsTo(g: GraphState, h: GraphState) {
    && |g.nodes| <= |h.nodes|
    && (forall i :: 0 <= i < |g.nodes| ==> h.nodes[i].id == g.nodes[i].id && h.nodes[i].work == g.nodes[i].work)
    && (forall d :: d in g.edges ==> d in h.edges)
  }

  lemma GrowsReflexive(g: GraphState)
    ensures GrowsTo(g, g)
  {
  }

  lemma GrowsTransitive(a: GraphState, b: GraphState, c: GraphState)
    requires GrowsTo(a, b) && GrowsTo(b, c)
    ensures GrowsTo(a, c)
  {
  }

  /** Every way in which a call can change a graph. */
  ghost predicate ChangesGraph(c: Call, g: GraphState, h: GraphState) {
    || h == g
    || (c.AddNode? && Acceptable(c.work) && h == WithNode(g, Stored(c.work)))
    || (c.AddEdge? && h == WithEdge(g, c.before, c.after))
    || (c.DeclareFlags? && c.index < |g.nodes| && h == WithFlags(g, c.index, c.flags))
    || (c.AttachArena? && h == g.(arena := Some(c.arena)))
  }

  lemma CallChangesGraph(w: State, c: Call, g: nat)
    requires Enabled(w, c) && g in w.graphs && c != DestroyGraph(g)
    ensures g in Apply(w, c).graphs && ChangesGraph(c, w.graphs[g], Apply(w, c).graphs[g])
  {
    hide Acceptable, FlagsOk, Instantiated, LaunchFails, FailureOf, AfterPatch, RefsAfterPatch, AfterSynchronize,
         WithNode, WithEdge, WithFlags, Stored, LaunchOf, ExecRefs, GraphRefs, WorkRefs, RecordRefs, LaunchRefs,
         AfterLaunch, AfterFailedLaunch, AfterSetOptimization, ArenaRefs;
  }

  lemma ChangeGrowsGraph(c: Call, g: GraphState, h: GraphState)
    requires ChangesGraph(c, g, h)
    ensures GrowsTo(g, h)
  {
    hide Acceptable, Stored;
  }

  lemma {:induction false} GraphOnlyGrows(calls: seq<Call>, more: seq<Call>, g: nat)
    requires Legal(calls + more) && Legal(calls) && g in After(calls).graphs && DestroyGraph(g) !in more
    ensures g in After(calls + more).graphs && GrowsTo(After(calls).graphs[g], After(calls + more).graphs[g])
    decreases |more|
  {
    hide Apply, Enabled, After, Legal, GrowsTo, ChangesGraph;
    if |more| == 0 {
      assert calls + more == calls;
      GrowsReflexive(After(calls).graphs[g]);
    } else {
      var n := |more| - 1;
      LastStep(calls, more);
      GraphOnlyGrows(calls, more[..n], g);
      CallChangesGraph(After(calls + more[..n]), more[n], g);
      var graph, next := After(calls + more[..n]).graphs[g], After(calls + more).graphs[g];
      ChangeGrowsGraph(more[n], graph, next);
      GrowsTransitive(After(calls).graphs[g], graph, next);
    }
  }

  // ---- what was added reaches the execs ----

  /** The last two parts of a run: how it went on, and the call that ended it. */
  lemma LastCall(calls: seq<Call>, c: Call)
    requires Legal(calls + [c])
    ensures Legal(calls) && Enabled(After(calls), c) && After(calls + [c]) == Apply(After(calls), c)
  {
    hide Enabled, Apply;
    assert (calls + [c])[..|calls|] == calls;
  }

  lemma AddNodeIs(w: State, g: nat, work: Work)
    requires Enabled(w, AddNode(g, work))
    ensures g in w.graphs && Admits(work)
    ensures g in Apply(w, AddNode(g, work)).graphs
         && NodeAdded(work, w.graphs[g], Apply(w, AddNode(g, work)).graphs[g])
  {
    hide Acceptable, Stored, Admits, NodeAdded, WithNode, WorkRefs, Instantiated, LaunchFails;
    AddedAsGiven(work, w.graphs[g]);
  }

  lemma AddEdgeIs(w: State, g: nat, a: nat, b: nat)
    requires Enabled(w, AddEdge(g, a, b))
    ensures g in w.graphs && g in Apply(w, AddEdge(g, a, b)).graphs
    ensures Edge(a, b) in Apply(w, AddEdge(g, a, b)).graphs[g].edges
  {
    hide Acceptable, Instantiated, LaunchFails;
  }

  /** Every node of the graph has its executable copy. */
  lemma NodeIsCloned(c: Call, g: GraphState, k: nat) returns (i: nat)
    requires c.Instantiate? && Instantiated(g, c.order, c.device, c.available, c.creates, c.made) && k < |g.nodes|
    ensures i < |c.made.nodes| && c.made.nodes[i].id == g.nodes[k].id && c.made.nodes[i].work == g.nodes[k].work
  {
    SelectionCovers(c.order, |g.nodes|);
    assert k in c.order;
    i :| 0 <= i < |c.order| && c.order[i] == k;
    assert IsCloneOf(g.nodes[c.order[i]], c.made.plan.records, c.made.nodes[i]);
  }

  /**
   A node that was added is in every exec made of its graph later on, under the identifier it was given,
   with the kind and the fields of the descriptor, defaults filled in.
   */
  lemma AddedNodeReachesExec(calls: seq<Call>, g: nat, work: Work, more: seq<Call>, c: Call) returns (i: nat)
    requires Legal(calls) && g in After(calls).graphs
    requires Legal(calls + [AddNode(g, work)] + more + [c]) && DestroyGraph(g) !in more
    requires c.Instantiate? && c.g == g
    ensures var w := After(calls + [AddNode(g, work)] + more + [c]);
      && c.e in w.execs && i < |w.execs[c.e].state.nodes|
      && w.execs[c.e].state.nodes[i].id == |After(calls).graphs[g].nodes| + 1
      && Admits(work) && Keeps(work, w.execs[c.e].state.nodes[i].work)
  {
    hide After, Legal, Enabled, Apply, Instantiated, Keeps, Admits;
    var added := calls + [AddNode(g, work)];
    LastCall(added + more, c);
    RunSplits(added, more);
    LastCall(calls, AddNode(g, work));
    AddNodeIs(After(calls), g, work);
    GraphOnlyGrows(added, more, g);
    InstantiateIs(After(added + more), c);
    i := NodeIsCloned(c, After(added + more).graphs[g], |After(calls).graphs[g].nodes|);
  }

  /** The exec's snapshot, and those of all its launches, are of this graph. */
  ghost predicate MadeFrom(w: State, e: nat, g: GraphState) {
    && e in w.execs && w.execs[e].source == g
    && (forall l :: l in w.launches && w.launches[l].exec == e ==> w.launches[l].from.source == g)
    && (forall k :: 0 <= k < |w.failures| && w.failures[k].exec == e ==> w.failures[k].from.source == g)
  }

  lemma InstantiateMadeFrom(w: State, c: Call)
    requires Enabled(w, c) && c.Instantiate?
    ensures c.g in w.graphs && MadeFrom(Apply(w, c), c.e, w.graphs[c.g])
  {
    hide Acceptable, FlagsOk, Instantiated, LaunchFails, FailureOf, AfterPatch, RefsAfterPatch, AfterSynchronize;
  }

  /** Calls that touch neither the nodes of an exec nor the exec as a whole. */
  predicate LeavesExec(c: Call, e: nat) {
    !(c.PatchExec? && c.e == e) && c != DestroyExec(e)
  }

  lemma StepLeavesExec(s: ExecState, op: ExecOp)
    ensures Step(s, op).plan == s.plan && Step(s, op).device == s.device
    ensures !op.OpPatch? ==> Step(s, op).nodes == s.nodes
  {
    hide PlanPatch, BegunIcb, LaunchedIcb;
  }

  /** An exec keeps its snapshot and its schedule, and, unless it is patched, its nodes. */
  lemma CallKeepsExec(w: State, c: Call, e: nat)
    requires Enabled(w, c) && e in w.execs && c != DestroyExec(e)
    ensures e in Apply(w, c).execs
    ensures var x, y := w.execs[e], Apply(w, c).execs[e];
      && y.source == x.source && y.order == x.order
      && (LeavesExec(c, e) ==> y.state.nodes == x.state.nodes && y.state.device == x.state.device)
  {
    hide Enabled, Apply, Step, AfterComplete;
    if StepsExec(c) {
      ExecCallSteps(w, c);
      StepLeavesExec(w.execs[c.e].state, OpOf(w, c));
    } else if c.Instantiate? {
      InstantiateIs(w, c);
    } else if c.DestroyExec? {
      DestroyExecIs(w, c.e);
    } else if c.Synchronize? {
      SynchronizeIs(w, c.l);
      SynchronizeLeavesNodes(w, c.l);
    } else {
      OtherCallsKeepExecs(w, c);
    }
  }

  lemma SynchronizeLeavesNodes(w: State, l: nat)
    requires l in w.launches
    ensures var execs := AfterSynchronize(w, l).execs;
      forall e :: e in w.execs ==>
        && e in execs
        && execs[e] == w.execs[e].(state := w.execs[e].state.(inFlight := execs[e].state.inFlight))
  {
  }

  lemma CallKeepsMadeFrom(w: State, c: Call, e: nat, g: GraphState)
    requires Enabled(w, c) && MadeFrom(w, e, g) && c != DestroyExec(e)
    ensures MadeFrom(Apply(w, c), e, g)
  {
    hide Enabled, Apply, LaunchSegments, AllBuffers, AllEvents;
    CallKeepsExec(w, c, e);
    CallChangesLaunches(w, c);
    if c.FailLaunch? {
      FailIs(w, c.e, c.faults);
    } else {
      OtherCallsKeepFailures(w, c);
    }
  }

  lemma {:induction false} StaysMadeFrom(calls: seq<Call>, more: seq<Call>, e: nat, g: GraphState)
    requires Legal(calls + more) && Legal(calls) && MadeFrom(After(calls), e, g) && DestroyExec(e) !in more
    ensures MadeFrom(After(calls + more), e, g)
    decreases |more|
  {
    hide Apply, Enabled, After, Legal, MadeFrom;
    if |more| == 0 {
      assert calls + more == calls;
    } else {
      var n := |more| - 1;
      LastStep(calls, more);
      StaysMadeFrom(calls, more[..n], e, g);
      CallKeepsMadeFrom(After(calls + more[..n]), more[n], e, g);
    }
  }

  /** The exec a launch was an attempt at. */
  function AttemptedExec(w: State, t: Attempt): nat
    requires WasMade(w, t)
  {
    match t
    case Returned(l) => w.launches[l].exec
    case Failing(k) => w.failures[k].exec
  }

  /**
   Once a dependency was added, it holds in every launch of every exec made of the graph later on, even in
   one that fails: whatever is committed for the first node precedes whatever is committed for the second.
   */
  lemma AddedEdgeOrdersEveryLog(
      calls: seq<Call>, g: nat, a: nat, b: nat, more: seq<Call>, c: Call, rest: seq<Call>,
      t: Attempt, p: nat, q: nat)
    requires Legal(calls + [AddEdge(g, a, b)] + more + [c] + rest)
    requires c.Instantiate? && c.g == g && DestroyGraph(g) !in more && DestroyExec(c.e) !in rest
    requires var w := After(calls + [AddEdge(g, a, b)] + more + [c] + rest);
      && WasMade(w, t) && AttemptedExec(w, t) == c.e
      && p < |Flatten(CommittedBy(w, t))| && q < |Flatten(CommittedBy(w, t))|
      && Flatten(CommittedBy(w, t))[p].node == a + 1 && Flatten(CommittedBy(w, t))[q].node == b + 1
    ensures p < q
  {
    hide After, Legal, Enabled, Apply, Instantiated, Flatten, CommittedBy, MadeFrom;
    var added := calls + [AddEdge(g, a, b)];
    RunSplits(added + more + [c], rest);
    LastCall(added + more, c);
    RunSplits(added, more);
    LastCall(calls, AddEdge(g, a, b));
    AddEdgeIs(After(calls), g, a, b);
    GraphOnlyGrows(added, more, g);
    InstantiateMadeFrom(After(added + more), c);
    StaysMadeFrom(added + more + [c], rest, c.e, After(added + more).graphs[g]);
    AttemptIsFrom(After(added + more + [c] + rest), t, After(added + more).graphs[g]);
    assert IsPath(After(added + more).graphs[g].edges, [a, b]);
    DependenciesHoldInEveryLog(added + more + [c] + rest, t, [a, b], p, q);
  }

  lemma AttemptIsFrom(w: State, t: Attempt, g: GraphState)
    requires WasMade(w, t) && MadeFrom(w, AttemptedExec(w, t), g)
    ensures LaunchedFrom(w, t).source == g
  {
  }

  // ---- what was patched reaches the next launch ----

  lemma {:induction false} NodesStay(calls: seq<Call>, more: seq<Call>, e: nat)
    requires Legal(calls + more) && Legal(calls) && e in After(calls).execs
    requires forall c :: c in more ==> LeavesExec(c, e)
    ensures e in After(calls + more).execs
    ensures After(calls + more).execs[e].state.nodes == After(calls).execs[e].state.nodes
    decreases |more|
  {
    hide Apply, Enabled, After, Legal, LeavesExec;
    if |more| == 0 {
      assert calls + more == calls;
    } else {
      var n := |more| - 1;
      LastStep(calls, more);
      NodesStay(calls, more[..n], e);
      NotDestroyed(more[n], e);
      CallKeepsExec(After(calls + more[..n]), more[n], e);
    }
  }

  lemma NotDestroyed(c: Call, e: nat)
    ensures LeavesExec(c, e) ==> c != DestroyExec(e)
  {
  }

  /** A patch call leaves the exec as the patch was granted, or as it was. */
  lemma PatchCallGrants(w: State, e: nat, id: NodeId, p: Patch)
    requires Enabled(w, PatchExec(e, id, p))
    ensures e in w.execs && e in Apply(w, PatchExec(e, id, p)).execs
    ensures var s, t := w.execs[e].state, Apply(w, PatchExec(e, id, p)).execs[e].state;
      if Accepts(s, id, p) then Granted(s, t, id, p) else t == s
  {
    hide Enabled, Apply, AfterPatch, Accepts, Granted;
    PatchIs(w, e, id, p);
    PatchGranted(w.execs[e].state, id, p);
  }

  /**
   Whatever happens between an accepted patch and the next launch, as long as it is not another patch, the
   launch starts from the nodes with the patch granted as requested; a rejected patch leaves no trace.
   */
  lemma PatchReachesNextLaunch(calls: seq<Call>, e: nat, id: NodeId, p: Patch, more: seq<Call>, l: nat)
    requires Legal(calls) && e in After(calls).execs
    requires Legal(calls + [PatchExec(e, id, p)] + more + [LaunchExec(e, l)])
    requires forall c :: c in more ==> LeavesExec(c, e)
    ensures var w := After(calls + [PatchExec(e, id, p)] + more + [LaunchExec(e, l)]);
      l in w.launches
      && var s, launched := After(calls).execs[e].state, w.launches[l].from.state.nodes;
         if Accepts(s, id, p) then Granted(s, s.(nodes := launched), id, p) else launched == s.nodes
  {
    hide After, Legal, Enabled, Apply, Accepts, Granted, LeavesExec;
    var patched := calls + [PatchExec(e, id, p)];
    LastCall(patched + more, LaunchExec(e, l));
    RunSplits(patched, more);
    LastCall(calls, PatchExec(e, id, p));
    PatchCallGrants(After(calls), e, id, p);
    NodesStay(patched, more, e);
    LaunchStartsFrom(After(patched + more), e, l);
    if Accepts(After(calls).execs[e].state, id, p) {
      GrantedIsAboutNodes(After(calls).execs[e].state, After(patched).execs[e].state, id, p);
    }
  }

  lemma GrantedIsAboutNodes(s: ExecState, t: ExecState, id: NodeId, p: Patch)
    requires Granted(s, t, id, p)
    ensures s.(nodes := t.nodes) == t
  {
  }

  lemma LaunchStartsFrom(w: State, e: nat, l: nat)
    requires Enabled(w, LaunchExec(e, l))
    ensures e in w.execs && l in Apply(w, LaunchExec(e, l)).launches
    ensures Apply(w, LaunchExec(e, l)).launches[l].from == w.execs[e]
  {
    hide Apply, Enabled, LaunchSegments, AllBuffers, AllEvents;
    LaunchIs(w, LaunchExec(e, l));
  }

  // ---- what a launch does ----

  lemma SoundNodes(x: ExecRecord)
    requires RecordSound(x)
    ensures ExecOk(x.state)
    ensures forall i :: 0 <= i < |x.state.nodes| ==> NodeOk(x.state.nodes[i]) && WorkBuffersOk(x.state.nodes[i].work)
  {
    hide SnapshotOk, NodeOk, WorkBuffersOk, SliceOk, PlanOk, IcbOk, IdsOk;
  }

  /** A launch that is returned does the work of its nodes, one after the other, each as its descriptor says. */
  lemma LaunchDoesItsNodes(calls: seq<Call>, l: nat, gpu: Gpu, m: Machine) returns (states: seq<Machine>)
    requires Legal(calls) && l in After(calls).launches
    ensures var launch := After(calls).launches[l];
      && DoneInOrder(gpu, launch.from.state.nodes, states)
      && states[0] == m && states[|launch.from.state.nodes|] == ExecuteAll(gpu, m, Flatten(launch.segments))
  {
    hide After, Legal, RecordSound, LaunchSegments, Flatten, EncodeAll, DoneInOrder, NodeOk, WorkBuffersOk, ExecOk,
         ExecuteAll, Expected, GraphsOk, ExecsOk, RefsOk, FlightsOk, NodesKept;
    RunsKeepInvariant(calls);
    var launch := After(calls).launches[l];
    assert LaunchOk(launch);
    SoundNodes(launch.from);
    WholeLog(launch.from.state);
    states := NodesDo(gpu, launch.from.state.nodes, m);
  }

  /**
   From the descriptor to the GPU: whatever work was added to a graph is done, as the descriptor says, by
   every launch of an exec made of the graph later on, unless a patch came between.
   */
  lemma AddedNodeIsDone(
      calls: seq<Call>, g: nat, work: Work, more: seq<Call>, c: Call, rest: seq<Call>, l: nat,
      gpu: Gpu, m: Machine)
    returns (i: nat, states: seq<Machine>)
    requires Legal(calls) && g in After(calls).graphs
    requires c.Instantiate? && c.g == g && DestroyGraph(g) !in more && forall d :: d in rest ==> LeavesExec(d, c.e)
    requires Legal(calls + [AddNode(g, work)] + more + [c] + rest + [LaunchExec(c.e, l)])
    ensures var w := After(calls + [AddNode(g, work)] + more + [c] + rest + [LaunchExec(c.e, l)]);
      l in w.launches
      && var nodes, segments := w.launches[l].from.state.nodes, w.launches[l].segments;
         && DoneInOrder(gpu, nodes, states)
         && states[0] == m && states[|nodes|] == ExecuteAll(gpu, m, Flatten(segments))
         && i < |nodes| && nodes[i].id == |After(calls).graphs[g].nodes| + 1 && Keeps(work, nodes[i].work)
         && Does(gpu, nodes[i].work, nodes[i].offset, states[i], states[i + 1])
  {
    hide After, Legal, Enabled, Apply, Keeps, Admits, Does, LeavesExec, Flatten, ExecuteAll;
    var made := calls + [AddNode(g, work)] + more + [c];
    LastCall(made + rest, LaunchExec(c.e, l));
    RunSplits(made, rest);
    i := AddedNodeReachesExec(calls, g, work, more, c);
    NodesStay(made, rest, c.e);
    LaunchStartsFrom(After(made + rest), c.e, l);
    states := LaunchDoesItsNodes(made + rest + [LaunchExec(c.e, l)], l, gpu, m);
  }

  /** A launch, even one that fails, has done the whole work of some first nodes, and nothing of the others. */
  lemma AttemptDoesFirstNodes(calls: seq<Call>, t: Attempt, gpu: Gpu, m: Machine)
    returns (n: nat, states: seq<Machine>)
    requires Legal(calls) && WasMade(After(calls), t)
    ensures var nodes, log := LaunchedFrom(After(calls), t).state.nodes, CommittedBy(After(calls), t);
      && n <= |nodes| && Flatten(log) == EncodeAll(nodes[..n])
      && DoneInOrder(gpu, nodes[..n], states) && states[0] == m && states[n] == ExecuteAll(gpu, m, Flatten(log))
  {
    hide After, Legal, RecordSound, LaunchSegments, Segments, Flatten, EncodeAll, DoneInOrder, NodeOk, WorkBuffersOk,
         ExecOk, ExecuteAll, WasMade, LaunchedFrom, CommittedBy;
    AttemptIsSound(calls, t);
    var x, log := LaunchedFrom(After(calls), t), CommittedBy(After(calls), t);
    SoundNodes(x);
    n := LogEndsBetweenNodes(x.state, log);
    states := NodesDo(gpu, x.state.nodes[..n], m);
  }

  lemma LogEndsBetweenNodes(s: ExecState, log: seq<Segment>) returns (n: nat)
    requires ExecOk(s) && IsPartOf(log, LaunchSegments(s))
    ensures n <= |s.nodes| && Flatten(log) == EncodeAll(s.nodes[..n])
  {
    hide RecordingOk, NodeOk, SliceOk, PlanOk, IdsOk, CountersOk, LaunchSegments, Segments, Flatten, EncodeAll;
    ReplayAgrees(s);
    n := SegmentsEndBetweenNodes(s.nodes, |log|);
    FlattenSame(log, LaunchSegments(s)[..|log|]);
  }

  // ---- what is held meanwhile ----

  ghost predicate NodesName(nodes: seq<ExecNode>, r: Ref) {
    exists i :: 0 <= i < |nodes| && Descriptors.Names(nodes[i].work, r)
  }

  lemma NodesHoldWhatTheyName(nodes: seq<ExecNode>, r: Ref)
    ensures r in WorksRefs(ExecWorks(nodes)) <==> NodesName(nodes, r)
  {
    hide WorkRefs, WorksRefs, Descriptors.Names;
    InWorksRefs(ExecWorks(nodes), r);
    forall i | 0 <= i < |nodes|
      ensures r in WorkRefs(ExecWorks(nodes)[i]) <==> Descriptors.Names(nodes[i].work, r)
    {
      HoldsWhatItNames(nodes[i].work, r);
    }
  }

  /**
   Until it is destroyed, a launch holds exactly the objects its nodes named when it was launched, so they
   are live however the exec is patched and whatever the caller lets go of.
   */
  lemma LaunchHoldsWhatItsNodesName(calls: seq<Call>, l: nat, r: Ref)
    requires Legal(calls) && l in After(calls).launches && After(calls).launches[l].alive
    ensures r in LaunchRefs(After(calls).launches[l]) <==> NodesName(After(calls).launches[l].from.state.nodes, r)
    ensures NodesName(After(calls).launches[l].from.state.nodes, r) ==> r in After(calls).refs
  {
    hide After, Legal, Expected, GraphsOk, ExecsOk, RefsOk, FlightsOk, NodesKept, RecordSound, HeldRefs, WorksRefs,
         AllBuffers, AllEvents, NodesName, LaunchSegments;
    RunsKeepInvariant(calls);
    var launch := After(calls).launches[l];
    assert LaunchOk(launch);
    LaunchShareIsCounted(After(calls), l);
    HeldIsNodesRefs(launch.from.state.nodes);
    NodesHoldWhatTheyName(launch.from.state.nodes, r);
  }

  /** What a graph's nodes name is live as long as the graph is. */
  lemma GraphHoldsWhatItsNodesName(calls: seq<Call>, g: nat, i: nat, r: Ref)
    requires Legal(calls) && g in After(calls).graphs && i < |After(calls).graphs[g].nodes|
    requires Descriptors.Names(After(calls).graphs[g].nodes[i].work, r)
    ensures r in After(calls).refs
  {
    hide After, Legal, Expected, GraphsOk, ExecsOk, RefsOk, FlightsOk, AttemptsOk, NodesKept, WorkRefs,
         Descriptors.Names, WorksRefs;
    RunsKeepInvariant(calls);
    var graph := After(calls).graphs[g];
    GraphShareIsCounted(After(calls), g);
    HoldsWhatItNames(graph.nodes[i].work, r);
    InWorksRefs(GraphWorks(graph.nodes), r);
    assert GraphWorks(graph.nodes)[i] == graph.nodes[i].work;
  }

  /** What an exec's nodes name, patched or not, is live as long as the exec is, and was checked when made. */
  lemma ExecHoldsWhatItsNodesName(calls: seq<Call>, e: nat, r: Ref)
    requires Legal(calls) && e in After(calls).execs && NodesName(After(calls).execs[e].state.nodes, r)
    ensures r in After(calls).refs && RefOk(r)
  {
    hide After, Legal, Expected, GraphsOk, ExecsOk, FlightsOk, AttemptsOk, NodesKept, NodesName, WorksRefs, RefOk;
    RunsKeepInvariant(calls);
    ExecShareIsCounted(After(calls), e);
    NodesHoldWhatTheyName(After(calls).execs[e].state.nodes, r);
  }
}
