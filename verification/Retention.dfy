/**
 What work in flight keeps live, what a caller can let go of, and what it never can: theorems about all
 the ways in which a run can go on.
 */
module Retention {
  import opened Prelude
  import opened Sums
  import opened Model
  import opened Planner
  import opened Builder
  import opened Commands
  import opened Exec
  import opened Bounds
  import opened Launching
  import Patching
  import Instantiation
  import opened World
  import opened Runs

  // ---- launches that were returned ----

  /** A launch that is not completed: all it was given is live, whether or not it was destroyed. */
  lemma UncompletedKeepsLive(calls: seq<Call>, l: nat)
    requires Legal(calls) && l in After(calls).launches && !After(calls).launches[l].completed
    ensures HeldRefs(After(calls).launches[l].buffers, After(calls).launches[l].events) <= After(calls).refs
  {
    hide After, Legal, Expected, GraphsOk, ExecsOk, RefsOk, FlightsOk, HeldRefs, WorksRefs, RecordSound,
         LaunchSegments, AllBuffers, AllEvents;
    RunsKeepInvariant(calls);
    var w := After(calls);
    var x := w.launches[l];
    HeldIsNodesRefs(x.from.state.nodes);
    ExecShareIsCounted(w, x.exec);
  }

  // ---- execs that can never be destroyed ----

  function StuckLaunches(w: State): set<nat> {
    set l | l in w.launches && Stuck(w, l)
  }

  /** The execs of launches that can never be completed. */
  function Pinned(w: State): set<nat> {
    set l | l in StuckLaunches(w) :: w.launches[l].exec
  }

  function PinnedExecs(w: State): map<nat, ExecRecord> {
    map e | e in w.execs && e in Pinned(w) :: w.execs[e]
  }

  /** All that the nodes and plans of these execs refer to. */
  ghost function PinnedRefs(w: State): multiset<Ref> {
    Total(PinnedExecs(w), RecordRefs)
  }

  lemma PinnedIsPart(w: State)
    requires w.refs == Expected(w)
    ensures PinnedRefs(w) <= w.refs
  {
    hide GraphRefs, RecordRefs, LaunchRefs;
    TotalPart(PinnedExecs(w), w.execs, RecordRefs);
  }

  /** A pinned exec refers to what the launch that pins it was launched from. */
  lemma PinnedShare(w: State, l: nat)
    requires NodesKept(w) && l in StuckLaunches(w)
    ensures w.launches[l].exec in PinnedExecs(w)
    ensures RecordRefs(PinnedExecs(w)[w.launches[l].exec]) == RecordRefs(w.launches[l].from)
  {
    hide WorksRefs;
  }

  /** What stays pinned keeps its references. */
  lemma PinnedGrows(w: State, v: State)
    requires NodesKept(w) && NodesKept(v)
    requires forall l :: l in StuckLaunches(w) ==>
               && l in StuckLaunches(v)
               && v.launches[l].exec == w.launches[l].exec && v.launches[l].from == w.launches[l].from
    ensures Pinned(w) <= Pinned(v) && PinnedRefs(w) <= PinnedRefs(v)
  {
    StuckAreLaunches(w);
    hide Stuck, NodesKept, StuckLaunches, RecordRefs;
    forall e | e in PinnedExecs(w)
      ensures e in PinnedExecs(v) && RecordRefs(PinnedExecs(w)[e]) == RecordRefs(PinnedExecs(v)[e])
    {
      var l :| l in StuckLaunches(w) && w.launches[l].exec == e;
      PinnedShare(w, l);
      PinnedShare(v, l);
    }
    TotalPart(PinnedExecs(w), PinnedExecs(v), RecordRefs);
  }

  lemma ReachedNodesKept(calls: seq<Call>)
    requires Legal(calls)
    ensures NodesKept(After(calls)) && After(calls).refs == Expected(After(calls))
  {
    hide After, Legal, Expected, GraphsOk, ExecsOk, RefsOk, FlightsOk, AttemptsOk, NodesKept;
    RunsKeepInvariant(calls);
  }

  /** However the run goes on, pinned execs stay, and what they refer to is never released. */
  lemma PinnedIsNeverReleased(calls: seq<Call>, more: seq<Call>)
    requires Legal(calls) && Legal(calls + more)
    ensures Pinned(After(calls)) <= Pinned(After(calls + more)) <= After(calls + more).execs.Keys
    ensures PinnedRefs(After(calls)) <= After(calls + more).refs
  {
    hide After, Legal, Expected, PinnedRefs, Pinned, NodesKept, Stuck;
    var w, v := After(calls), After(calls + more);
    ReachedNodesKept(calls);
    ReachedNodesKept(calls + more);
    forall l | l in StuckLaunches(w)
      ensures l in StuckLaunches(v)
      ensures v.launches[l].exec == w.launches[l].exec && v.launches[l].from == w.launches[l].from
    {
      StaysStuck(calls, more, l);
      StuckLaunch(v, l);
    }
    PinnedGrows(w, v);
    PinnedIsPart(v);
    PinnedExist(v);
  }

  lemma PinnedExist(w: State)
    requires NodesKept(w)
    ensures Pinned(w) <= w.execs.Keys
  {
  }

  // ---- a caller that lets go of all it can ----

  function AliveLaunches(w: State): set<nat> {
    set l | l in w.launches && w.launches[l].alive
  }

  function Waitable(w: State): set<nat> {
    set l | l in w.launches && w.launches[l].alive && !w.launches[l].completed && w.launches[l].segments != []
  }

  function FreeExecs(w: State): set<nat> {
    set e | e in w.execs && e !in Pinned(w)
  }

  /** How many calls it takes to let go of everything that can be. */
  function Possessions(w: State): nat {
    |Waitable(w)| + |AliveLaunches(w)| + |FreeExecs(w)| + |w.graphs| + |w.handles|
  }

  /** The same attempts, but for launches completed or destroyed meanwhile; none became stuck or unstuck. */
  ghost predicate SameAttempts(w: State, v: State) {
    && v.failures == w.failures && v.launches.Keys == w.launches.Keys
    && forall l :: l in w.launches ==>
         && v.launches[l] == w.launches[l].(alive := v.launches[l].alive, completed := v.launches[l].completed)
         && (Stuck(v, l) <==> Stuck(w, l))
  }

  lemma SameLaunches(w: State, v: State)
    requires v.launches == w.launches && v.failures == w.failures
    ensures SameAttempts(w, v) && AliveLaunches(v) == AliveLaunches(w) && Waitable(v) == Waitable(w)
    ensures StuckLaunches(v) == StuckLaunches(w) && Pinned(v) == Pinned(w)
  {
    assert StuckLaunches(v) == StuckLaunches(w);
  }

  lemma SamePins(w: State, v: State)
    requires SameAttempts(w, v)
    ensures StuckLaunches(v) == StuckLaunches(w) && Pinned(v) == Pinned(w)
  {
    assert StuckLaunches(v) == StuckLaunches(w);
    hide Stuck, StuckLaunches;
    assert forall l :: l in StuckLaunches(w) ==> v.launches[l].exec == w.launches[l].exec by {
      StuckAreLaunches(w);
    }
  }

  lemma StuckAreLaunches(w: State)
    ensures StuckLaunches(w) <= w.launches.Keys
  {
  }

  lemma WaitedIsSame(w: State, v: State, l: nat)
    requires l in Waitable(w) && v.launches == w.launches[l := w.launches[l].(completed := true)]
    requires v.failures == w.failures
    ensures SameAttempts(w, v)
  {
  }

  lemma FewerWaitable(w: State, v: State, l: nat)
    requires l in Waitable(w) && SameAttempts(w, v)
    requires v.launches == w.launches[l := w.launches[l].(completed := true)]
    requires v == w.(launches := v.launches, execs := v.execs) && v.execs.Keys == w.execs.Keys
    ensures Possessions(v) < Possessions(w)
  {
    hide Stuck, Pinned, SameAttempts;
    SamePins(w, v);
    assert Waitable(v) == Waitable(w) - {l};
    assert AliveLaunches(v) == AliveLaunches(w);
    assert FreeExecs(v) == FreeExecs(w);
  }

  lemma WaitedState(w: State, l: nat)
    requires FlightsOk(w) && l in Waitable(w)
    ensures var v := AfterSynchronize(w, l);
      && v.launches == w.launches[l := w.launches[l].(completed := true)]
      && v == w.(launches := v.launches, execs := v.execs) && v.execs.Keys == w.execs.Keys
  {
    hide Outstanding, AfterComplete;
    CompletingDecrements(w, l);
  }

  /** Waiting for a launch that can be waited for. */
  lemma WaitGoes(w: State, l: nat)
    requires FlightsOk(w) && l in Waitable(w)
    ensures Enabled(w, Synchronize(l))
    ensures var v := Apply(w, Synchronize(l)); SameAttempts(w, v) && Possessions(v) < Possessions(w)
  {
    hide Enabled, Apply, FlightsOk, AfterSynchronize, SameAttempts, Possessions;
    SynchronizeCompletes(w, l);
    SynchronizeIs(w, l);
    WaitedState(w, l);
    WaitedIsSame(w, AfterSynchronize(w, l), l);
    FewerWaitable(w, AfterSynchronize(w, l), l);
  }

  lemma DestroyedIsSame(w: State, v: State, l: nat)
    requires l in AliveLaunches(w) && l !in Waitable(w)
    requires v == w.(launches := w.launches[l := w.launches[l].(alive := false)], refs := v.refs)
    ensures SameAttempts(w, v)
  {
  }

  lemma FewerAlive(w: State, v: State, l: nat)
    requires l in AliveLaunches(w) && l !in Waitable(w) && SameAttempts(w, v)
    requires v == w.(launches := w.launches[l := w.launches[l].(alive := false)], refs := v.refs)
    ensures Possessions(v) < Possessions(w)
  {
    hide Stuck, Pinned, SameAttempts;
    SamePins(w, v);
    assert Waitable(v) == Waitable(w);
    assert AliveLaunches(v) == AliveLaunches(w) - {l};
    assert FreeExecs(v) == FreeExecs(w);
  }

  /** Destroying a launch that needs no waiting, or cannot be waited for. */
  lemma LaunchGoes(w: State, l: nat)
    requires l in AliveLaunches(w) && l !in Waitable(w)
    ensures Enabled(w, DestroyLaunch(l))
    ensures var v := Apply(w, DestroyLaunch(l)); SameAttempts(w, v) && Possessions(v) < Possessions(w)
  {
    hide Enabled, Apply, LaunchRefs, SameAttempts, Possessions, Waitable;
    LaunchMayGo(w, l);
    DestroyLaunchIs(w, l);
    DestroyedIsSame(w, Apply(w, DestroyLaunch(l)), l);
    FewerAlive(w, Apply(w, DestroyLaunch(l)), l);
  }

  lemma LaunchMayGo(w: State, l: nat)
    requires l in AliveLaunches(w)
    ensures Enabled(w, DestroyLaunch(l))
  {
  }

  /** With no launch left, an exec that is not pinned is idle. */
  lemma FreeIsIdle(w: State, e: nat)
    requires FlightsOk(w) && AliveLaunches(w) == {} && e in FreeExecs(w)
    ensures w.execs[e].state.inFlight == 0
  {
    forall l | l in w.launches && w.launches[l].exec == e
      ensures w.launches[l].completed
    {
      assert l !in AliveLaunches(w);
      assert Stuck(w, l) ==> l in StuckLaunches(w);
    }
    assert Outstanding(w.launches, e) == {};
  }

  lemma ExecGoes(w: State, e: nat)
    requires FlightsOk(w) && AliveLaunches(w) == {} && e in FreeExecs(w)
    ensures Enabled(w, DestroyExec(e))
    ensures var v := Apply(w, DestroyExec(e)); SameAttempts(w, v) && Possessions(v) < Possessions(w)
  {
    hide Enabled, Apply, RecordRefs, FlightsOk, Pinned, Waitable, SameAttempts;
    FreeIsIdle(w, e);
    ExecMayGo(w, e);
    DestroyExecIs(w, e);
    var v := Apply(w, DestroyExec(e));
    SameLaunches(w, v);
    assert FreeExecs(v) == FreeExecs(w) - {e};
  }

  lemma ExecMayGo(w: State, e: nat)
    requires e in w.execs && w.execs[e].state.inFlight == 0
    ensures Enabled(w, DestroyExec(e))
  {
  }

  lemma GraphMayGo(w: State, g: nat)
    requires g in w.graphs
    ensures Enabled(w, DestroyGraph(g))
    ensures var v := Apply(w, DestroyGraph(g)); v == w.(graphs := w.graphs - {g}, refs := v.refs)
  {
    hide GraphRefs;
  }

  lemma GraphGoes(w: State, g: nat)
    requires g in w.graphs
    ensures Enabled(w, DestroyGraph(g))
    ensures var v := Apply(w, DestroyGraph(g)); SameAttempts(w, v) && Possessions(v) < Possessions(w)
  {
    hide Enabled, Apply, Pinned, Waitable, AliveLaunches, SameAttempts;
    GraphMayGo(w, g);
    SameLaunches(w, Apply(w, DestroyGraph(g)));
    assert (w.graphs - {g}).Keys == w.graphs.Keys - {g};
  }

  lemma HandleMayGo(w: State, r: Ref)
    requires r in w.handles
    ensures Enabled(w, DropHandle(r))
    ensures var v := Apply(w, DropHandle(r)); v == w.(handles := w.handles - multiset{r}, refs := v.refs)
  {
  }

  lemma HandleGoes(w: State, r: Ref)
    requires r in w.handles
    ensures Enabled(w, DropHandle(r))
    ensures var v := Apply(w, DropHandle(r)); SameAttempts(w, v) && Possessions(v) < Possessions(w)
  {
    hide Enabled, Apply, Pinned, Waitable, AliveLaunches, SameAttempts;
    HandleMayGo(w, r);
    SameLaunches(w, Apply(w, DropHandle(r)));
  }

  /** The next thing to let go of: waiting first, then launches, execs, graphs and handles. */
  lemma NextToGo(w: State) returns (c: Call)
    requires FlightsOk(w) && Possessions(w) > 0
    ensures Enabled(w, c) && SameAttempts(w, Apply(w, c)) && Possessions(Apply(w, c)) < Possessions(w)
  {
    hide Enabled, Apply, SameAttempts, FlightsOk, Waitable, AliveLaunches, FreeExecs;
    if l :| l in Waitable(w) {
      c := Synchronize(l);
      WaitGoes(w, l);
    } else if l :| l in AliveLaunches(w) {
      c := DestroyLaunch(l);
      LaunchGoes(w, l);
    } else if e :| e in FreeExecs(w) {
      c := DestroyExec(e);
      ExecGoes(w, e);
    } else if g :| g in w.graphs {
      c := DestroyGraph(g);
      GraphGoes(w, g);
    } else {
      var r := SomeHandle(w.handles);
      c := DropHandle(r);
      HandleGoes(w, r);
    }
  }

  lemma SomeHandle(handles: multiset<Ref>) returns (r: Ref)
    requires |handles| > 0
    ensures r in handles
  {
    r :| r in handles;
  }

  lemma SameAttemptsTransitive(u: State, v: State, w: State)
    requires SameAttempts(u, v) && SameAttempts(v, w)
    ensures SameAttempts(u, w)
  {
    hide Stuck;
  }

  /** With nothing left to let go of, the pinned execs are all there is. */
  lemma OnlyPinnedLeft(w: State)
    requires w.refs == Expected(w) && Possessions(w) == 0
    ensures w.refs == PinnedRefs(w) && w.execs == PinnedExecs(w)
  {
    hide GraphRefs, RecordRefs, HeldRefs, Pinned;
    assert forall e :: e in w.execs ==> e !in FreeExecs(w);
    assert w.execs == PinnedExecs(w);
    NothingHeldByLaunches(w);
    assert w.graphs == map[];
  }

  lemma NothingHeldByLaunches(w: State)
    requires AliveLaunches(w) == {}
    ensures Total(w.launches, LaunchRefs) == multiset{}
  {
    hide HeldRefs, Total;
    assert forall l :: l in w.launches ==> l !in AliveLaunches(w);
    if r :| r in Total(w.launches, LaunchRefs) {
      InTotal(w.launches, LaunchRefs, r);
      assert false;
    }
  }

  /**
   From wherever a run leads, the caller can let go of all objects but those of pinned execs: it waits
   for its launches and destroys what may be destroyed.
   */
  lemma {:induction false} CallerCanLetGo(calls: seq<Call>) returns (more: seq<Call>)
    requires Legal(calls)
    ensures Legal(calls + more) && SameAttempts(After(calls), After(calls + more))
    ensures After(calls + more).refs == PinnedRefs(After(calls))
    ensures After(calls + more).execs.Keys == Pinned(After(calls))
    decreases Possessions(After(calls))
  {
    hide After, Legal, Enabled, Apply, SameAttempts, Possessions, PinnedRefs, Pinned, NodesKept, Invariant;
    if Possessions(After(calls)) == 0 {
      more := [];
      assert calls + more == calls;
      AllLetGo(calls);
    } else {
      ReachedFlightsOk(calls);
      var c := NextToGo(After(calls));
      OneCallMore(calls, c);
      var rest := CallerCanLetGo(calls + [c]);
      more := [c] + rest;
      assert calls + more == calls + [c] + rest;
      SameAttemptsTransitive(After(calls), After(calls + [c]), After(calls + more));
      ReachedNodesKept(calls);
      ReachedNodesKept(calls + [c]);
      SamePinnedRefs(After(calls), After(calls + [c]));
    }
  }

  lemma ReachedFlightsOk(calls: seq<Call>)
    requires Legal(calls)
    ensures FlightsOk(After(calls))
  {
    hide After, Legal, Expected, GraphsOk, ExecsOk, RefsOk, FlightsOk, AttemptsOk, NodesKept;
    RunsKeepInvariant(calls);
  }

  lemma AllLetGo(calls: seq<Call>)
    requires Legal(calls) && Possessions(After(calls)) == 0
    ensures SameAttempts(After(calls), After(calls))
    ensures After(calls).refs == PinnedRefs(After(calls)) && After(calls).execs.Keys == Pinned(After(calls))
  {
    hide After, Legal, Expected, NodesKept, PinnedRefs, Possessions, Pinned;
    ReachedNodesKept(calls);
    OnlyPinnedLeft(After(calls));
    PinnedExist(After(calls));
  }

  lemma SamePinnedRefs(w: State, v: State)
    requires NodesKept(w) && NodesKept(v) && SameAttempts(w, v)
    ensures Pinned(v) == Pinned(w) && PinnedRefs(v) == PinnedRefs(w)
  {
    hide NodesKept, PinnedRefs, Pinned;
    SamePins(w, v);
    StuckAreLaunches(w);
    hide Stuck, StuckLaunches;
    PinnedGrows(w, v);
    PinnedGrows(v, w);
  }

  /** What the pinned execs refer to is the least that can be live from here on, and it can be reached. */
  lemma LeastLive(calls: seq<Call>)
    requires Legal(calls)
    ensures forall more :: Legal(calls + more) ==> PinnedRefs(After(calls)) <= After(calls + more).refs
    ensures exists more :: Legal(calls + more) && After(calls + more).refs == PinnedRefs(After(calls))
  {
    hide After, Legal, PinnedRefs, Pinned, SameAttempts;
    forall more | Legal(calls + more)
      ensures PinnedRefs(After(calls)) <= After(calls + more).refs
    {
      PinnedIsNeverReleased(calls, more);
    }
    var more := CallerCanLetGo(calls);
    assert After(calls + more).refs == PinnedRefs(After(calls));
  }

  /** The caller can get rid of all its execs if and only if none is pinned. */
  lemma AllExecsCanGoIff(calls: seq<Call>)
    requires Legal(calls)
    ensures (exists more :: Legal(calls + more) && After(calls + more).execs == map[]) <==> Pinned(After(calls)) == {}
  {
    hide After, Legal, PinnedRefs, Pinned, SameAttempts;
    if Pinned(After(calls)) == {} {
      var more := CallerCanLetGo(calls);
      assert After(calls + more).execs == map[];
    } else if more :| Legal(calls + more) && After(calls + more).execs == map[] {
      PinnedIsNeverReleased(calls, more);
      assert false;
    }
  }

  // ---- the documented promise ----

  /** The attempt left work that nobody waited for, and that work names the object. */
  ghost predicate InFlight(w: State, a: Attempt, r: Ref) {
    match a
    case Returned(l) =>
      l in w.launches && !w.launches[l].completed && r in HeldRefs(w.launches[l].buffers, w.launches[l].events)
    case Failing(k) => k < |w.failures| && LogNames(w.failures[k], r)
  }

  /** Some command buffer that was not waited for has a command of a node that refers to the object. */
  ghost predicate LogNames(f: Failure, r: Ref) {
    exists i, j :: 0 <= i < |f.from.state.nodes| && 0 <= j < |LeftLog(f)| && !LeftLog(f)[j].waited
                   && r in WorkSlots(f.from.state.nodes[i].work)
                   && HasCommandOf(LeftLog(f)[j], f.from.state.nodes[i].id)
  }

  predicate HasCommandOf(segment: Segment, id: NodeId) {
    exists c :: c in segment.commands && c.node == id
  }

  /** However the run goes on, the object is live as long as the work is in flight. */
  ghost predicate KeepsLive(calls: seq<Call>, a: Attempt, r: Ref)
    requires Legal(calls)
  {
    forall more :: Legal(calls + more) && InFlight(After(calls + more), a, r) ==> r in After(calls + more).refs
  }

  /**
   What a returned launch runs stays live until it is completed, even if the launch is destroyed. What a
   failed launch left running stays live if and only if a pinned exec happens to refer to it.
   */
  lemma RetentionIff(calls: seq<Call>, a: Attempt, r: Ref)
    requires Legal(calls) && InFlight(After(calls), a, r)
    ensures KeepsLive(calls, a, r) <==> a.Returned? || r in PinnedRefs(After(calls))
  {
    hide After, Legal, PinnedRefs, Pinned, KeepsLive, LogNames, HeldRefs;
    if a.Returned? {
      ReturnedKeepsLive(calls, a.l, r);
    } else if r in PinnedRefs(After(calls)) {
      PinnedKeepsLive(calls, a, r);
    } else {
      var more := CallerCanLetGo(calls);
      FailureIsNotKept(calls, more, a.k, r);
    }
  }

  lemma ReturnedKeepsLive(calls: seq<Call>, l: nat, r: Ref)
    requires Legal(calls)
    ensures KeepsLive(calls, Returned(l), r)
  {
    hide After, Legal, HeldRefs;
    forall more | Legal(calls + more) && InFlight(After(calls + more), Returned(l), r)
      ensures r in After(calls + more).refs
    {
      UncompletedKeepsLive(calls + more, l);
    }
  }

  lemma PinnedKeepsLive(calls: seq<Call>, a: Attempt, r: Ref)
    requires Legal(calls) && r in PinnedRefs(After(calls))
    ensures KeepsLive(calls, a, r)
  {
    hide After, Legal, PinnedRefs, Pinned, InFlight;
    forall more | Legal(calls + more)
      ensures r in After(calls + more).refs
    {
      PinnedIsNeverReleased(calls, more);
    }
  }

  lemma FailureIsNotKept(calls: seq<Call>, more: seq<Call>, k: nat, r: Ref)
    requires Legal(calls) && InFlight(After(calls), Failing(k), r)
    requires Legal(calls + more) && SameAttempts(After(calls), After(calls + more)) && r !in After(calls + more).refs
    ensures !KeepsLive(calls, Failing(k), r)
  {
    hide After, Legal, LogNames, Stuck;
    assert InFlight(After(calls + more), Failing(k), r);
  }

  /** What in-flight work names stays live until the work is completed. */
  ghost predicate RetainsUntilCompletion(calls: seq<Call>)
    requires Legal(calls)
  {
    forall a, r :: InFlight(After(calls), a, r) ==> KeepsLive(calls, a, r)
  }

  /**
   The promise is kept if and only if everything that failed launches left running is referred to by
   pinned execs. Launches that were returned never break it.
   */
  lemma RetentionPromiseIff(calls: seq<Call>)
    requires Legal(calls)
    ensures RetainsUntilCompletion(calls)
       <==> forall k, r :: InFlight(After(calls), Failing(k), r) ==> r in PinnedRefs(After(calls))
  {
    hide After, Legal, PinnedRefs, KeepsLive, InFlight;
    forall k, r | InFlight(After(calls), Failing(k), r)
      ensures KeepsLive(calls, Failing(k), r) <==> r in PinnedRefs(After(calls))
    {
      RetentionIff(calls, Failing(k), r);
    }
    if forall k, r :: InFlight(After(calls), Failing(k), r) ==> r in PinnedRefs(After(calls)) {
      forall a, r | InFlight(After(calls), a, r)
        ensures KeepsLive(calls, a, r)
      {
        match a
        case Returned(l) => ReturnedKeepsLive(calls, l, r);
        case Failing(k) => RetentionIff(calls, Failing(k), r);
      }
    }
  }

  // ---- patches against work in flight ----

  /** A failed launch of the exec left a command buffer nobody waited for. */
  predicate LeftBehind(w: State, e: nat) {
    exists k :: 0 <= k < |w.failures| && w.failures[k].exec == e && HasUnwaited(LeftLog(w.failures[k]))
  }

  /** The GPU may still be working for the exec. */
  predicate AtWork(w: State, e: nat) {
    || LeftBehind(w, e)
    || (exists l :: l in w.launches && w.launches[l].exec == e && !w.launches[l].completed
                    && HasUnwaited(w.launches[l].segments))
  }

  /**
   A patch is accepted while command buffers of its exec may still be running exactly when a launch of
   it failed late enough: in the final table, or in or after a tensor graph, as `LeavesWork` spells out.
   */
  lemma PatchesMeetWorkIff(calls: seq<Call>, e: nat, id: NodeId, p: Patch)
    requires Legal(calls) && e in After(calls).execs && PlanPatch(After(calls).execs[e].state, id, p).Change?
    ensures AtWork(After(calls), e)
       <==> exists k :: 0 <= k < |After(calls).failures| && After(calls).failures[k].exec == e
                        && LeavesWork(After(calls).failures[k].from.state, After(calls).failures[k].faults)
  {
    hide After, Legal, HasUnwaited, LeavesWork, FailureOf, LaunchFails;
    InFlightCountIsExact(calls, e, id, p);
    forall k | 0 <= k < |After(calls).failures|
      ensures HasUnwaited(LeftLog(After(calls).failures[k]))
         <==> LeavesWork(After(calls).failures[k].from.state, After(calls).failures[k].faults)
    {
      FailureLeavesWorkIff(calls, k);
    }
  }

  lemma FailureLeavesWorkIff(calls: seq<Call>, k: nat)
    requires Legal(calls) && k < |After(calls).failures|
    ensures HasUnwaited(LeftLog(After(calls).failures[k]))
       <==> LeavesWork(After(calls).failures[k].from.state, After(calls).failures[k].faults)
  {
    hide After, Legal, Expected, GraphsOk, ExecsOk, RefsOk, FlightsOk, NodesKept, HasUnwaited, LeavesWork,
         FailureOf, LaunchFails, RecordSound, LaunchOk;
    RunsKeepInvariant(calls);
    LeavesWorkIff(After(calls).failures[k].from.state, After(calls).failures[k].faults);
  }
}
