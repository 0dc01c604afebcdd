/**
 The state of an executable graph and the operations on it (patch.c, and the state half of
 instantiate, launch and synchronize): which patches are accepted, what they change, and what stays.
 */
module Exec {
  import opened Prelude
  import opened Model
  import opened Validation
  import opened Builder
  import opened Planner
  import opened Commands

  datatype OptFlag = UseIcb | OtherOpt(bit: nat)

  datatype IcbReason =
    | NoFallback | Disabled | IcbUnsupported | IneligibleNode | UnknownResourceAccess | PatchableField
    | BackendFailure

  /** The indirect command buffer of an exec: prerecorded commands, if any, and its counters. */
  datatype Icb = Icb(
    enabled: set<OptFlag>, available: bool, planned: nat, used: nat, fallback: nat,
    reason: IcbReason, commands: Option<seq<Command>>)

  datatype ExecState = ExecState(
    nodes: seq<ExecNode>, device: Option<nat>, plan: Plan, hasWorkspace: bool, icb: Icb, inFlight: nat)

  const INVALID_NODE_ID: nat := SIZE_MAX

  // ---- references ----

  function ExecWorks(nodes: seq<ExecNode>): (works: seq<Work>)
    ensures |works| == |nodes|
  {
    seq(|nodes|, i requires 0 <= i < |nodes| => nodes[i].work)
  }

  function ExecRefs(s: ExecState): multiset<Ref> {
    WorksRefs(ExecWorks(s.nodes)) + ArenaRefs(s.plan.arena)
  }

  // ---- the indirect command buffer ----

  predicate AccessKnown(resources: seq<Resource>, index: nat) {
    HasRange(resources, index) && !ResourceFor(resources, index).value.access.UnknownAccess?
  }

  /** Why a dispatch node may not be prerecorded, or `NoFallback`. */
  function Eligibility(d: DispatchWork, flags: set<PatchFlag>): IcbReason {
    if flags != {} || d.scalars != [] then PatchableField
    else if exists i :: 0 <= i < |d.buffers| && !AccessKnown(d.resources, d.buffers[i].index)
    then UnknownResourceAccess
    else NoFallback
  }

  /** What instantiation records; `creates` says whether Metal hands out the buffer. */
  function BuiltIcb(nodes: seq<ExecNode>, available: bool, creates: bool): Icb {
    var idle := Icb({UseIcb}, available, 0, 0, 0, NoFallback, None);
    var refused := idle.(planned := 1, fallback := 1);
    if |nodes| == 0 then idle
    else if |nodes| != 1 then refused.(reason := IneligibleNode)
    else if !available then refused.(reason := IcbUnsupported)
    else if !nodes[0].work.Dispatch? then refused.(reason := IneligibleNode)
    else
      var reason := Eligibility(nodes[0].work.dispatch, nodes[0].flags);
      if reason != NoFallback then refused.(reason := reason)
      else if !creates then refused.(reason := BackendFailure)
      else idle.(planned := 1, commands := Some(Encode(nodes[0])))
  }

  /** Some contract names the binding's index and says which bytes are accessed, and how. */
  predicate HasKnownRange(d: DispatchWork, i: nat)
    requires i < |d.buffers|
  {
    exists k :: 0 <= k < |d.resources| && d.resources[k].index == d.buffers[i].index
                && d.resources[k].byteCount > 0 && d.resources[k].access != UnknownAccess
  }

  /** A dispatch with nothing a patch could change later and every access declared. */
  predicate Recordable(n: ExecNode) {
    && n.work.Dispatch? && n.flags == {} && n.work.dispatch.scalars == []
    && forall i :: 0 <= i < |n.work.dispatch.buffers| ==> HasKnownRange(n.work.dispatch, i)
  }

  predicate UsesIcb(icb: Icb) {
    icb.commands.Some? && UseIcb in icb.enabled
  }

  /** The counters as a launch resets them before encoding. */
  function BegunIcb(icb: Icb): Icb {
    if icb.planned == 0 then icb
    else
      var reset := icb.(used := 0, fallback := 0);
      if UseIcb !in icb.enabled then reset.(fallback := icb.planned, reason := Disabled)
      else if icb.commands.None? then
        reset.(fallback := icb.planned,
               reason := if icb.reason == NoFallback then IcbUnsupported else icb.reason)
      else reset
  }

  function LaunchedIcb(icb: Icb): Icb {
    if UsesIcb(icb) then BegunIcb(icb).(used := icb.planned, fallback := 0, reason := NoFallback)
    else BegunIcb(icb)
  }

  /** The command buffers a successful launch commits. */
  function LaunchSegments(s: ExecState): seq<Segment> {
    if UsesIcb(s.icb) then [Segment(s.icb.commands.value, false)] else Segments(s.nodes)
  }

  /** How far a launch that failed had come: which counters it leaves behind. */
  datatype FailurePoint = BeforeCounters | WhileEncoding | AfterReplay

  function LeftIcb(icb: Icb, point: FailurePoint): Icb {
    match point
    case BeforeCounters => icb
    case WhileEncoding => BegunIcb(icb)
    case AfterReplay => LaunchedIcb(icb)
  }

  function AfterLaunch(s: ExecState): ExecState {
    s.(icb := LaunchedIcb(s.icb), inFlight := s.inFlight + 1)
  }

  /** The prerecorded commands are those of a frozen single dispatch, encoded directly. */
  predicate RecordingOk(s: ExecState) {
    s.icb.commands.Some? ==>
      && |s.nodes| == 1 && Recordable(s.nodes[0])
      && s.icb.commands.value == Encode(s.nodes[0])
  }

  /** Every nonempty exec counts as one group, used at most once, and a fallback has a reason. */
  predicate CountersOk(icb: Icb, empty: bool) {
    && icb.planned == (if empty then 0 else 1)
    && icb.used + icb.fallback <= icb.planned
    && (icb.fallback > 0 ==> icb.reason != NoFallback)
  }

  predicate IcbOk(s: ExecState) {
    RecordingOk(s) && CountersOk(s.icb, s.nodes == [])
  }

  /**
   What a launch that returns reports: every group was either used or counted as a fallback; used means
   that there was a recording and the optimization was on, and then it is the recording that is committed;
   a reason is given exactly when it was not used, and it is that the optimization is off whenever it is.
   */
  lemma CountersTellThePath(s: ExecState)
    requires IcbOk(s) && s.nodes != []
    ensures var icb := AfterLaunch(s).icb;
      && icb.used + icb.fallback == icb.planned == 1
      && (icb.used == 1 <==> s.icb.commands.Some? && UseIcb in s.icb.enabled)
      && (icb.used == 1 ==> LaunchSegments(s) == [Segment(s.icb.commands.value, false)])
      && (icb.used == 0 ==> LaunchSegments(s) == Segments(s.nodes))
      && (icb.reason == NoFallback <==> icb.used == 1)
      && (UseIcb !in s.icb.enabled ==> icb.reason == Disabled)
      && icb.enabled == s.icb.enabled && icb.commands == s.icb.commands && icb.available == s.icb.available
  {
  }

  /** An empty exec has nothing to count: its launches leave the counters alone. */
  lemma NothingToCount(s: ExecState)
    requires IcbOk(s) && s.nodes == []
    ensures AfterLaunch(s).icb == s.icb && s.icb.used == s.icb.fallback == 0
  {
  }

  /** Whatever point a launch reaches, the counters stay sound and the rest of the ICB as it was. */
  lemma LeftIcbOk(icb: Icb, empty: bool, point: FailurePoint)
    requires CountersOk(icb, empty)
    ensures CountersOk(LeftIcb(icb, point), empty)
    ensures LeftIcb(icb, point) == icb.(used := LeftIcb(icb, point).used, fallback := LeftIcb(icb, point).fallback,
                                        reason := LeftIcb(icb, point).reason)
  {
  }

  /**
   What a launch that fails reports: nothing new before it begins to encode; while it encodes, a fallback
   unless it was about to replay; after a replay, what a launch that returns would.
   */
  lemma FailureTellsThePath(s: ExecState, point: FailurePoint)
    requires IcbOk(s) && s.nodes != []
    ensures var icb, replays := LeftIcb(s.icb, point), s.icb.commands.Some? && UseIcb in s.icb.enabled;
      && (point == BeforeCounters ==> icb == s.icb)
      && (point == WhileEncoding ==>
            && icb.used == 0 && icb.fallback == (if replays then 0 else 1)
            && icb.reason == (if UseIcb !in s.icb.enabled then Disabled
                              else if !replays && s.icb.reason == NoFallback then IcbUnsupported
                              else s.icb.reason))
      && (point == AfterReplay && replays ==> icb.used == 1 && icb.fallback == 0 && icb.reason == NoFallback)
  {
  }

  /**
   Without a recording, a launch with the optimization enabled reports that it was disabled exactly
   when that was reported before: the reason of an earlier launch is never taken back.
   */
  lemma StaleReasonIff(icb: Icb)
    requires icb.planned > 0 && icb.commands.None? && UseIcb in icb.enabled
    ensures LaunchedIcb(icb).reason == Disabled <==> icb.reason == Disabled
  {
  }

  /** Replaying the recording commits what direct encoding would: the optimization is invisible. */
  lemma ReplayAgrees(s: ExecState)
    requires RecordingOk(s)
    ensures LaunchSegments(s) == Segments(s.nodes)
  {
    if UsesIcb(s.icb) {
      assert s.nodes == [s.nodes[0]];
      SingleRawNode(s.nodes[0]);
      assert |Encode(s.nodes[0])| == 1;
    }
  }

  /** The contract a search finds is the only one with its index. */
  lemma KnownRangeFound(d: DispatchWork, i: nat)
    requires ResourcesOk(d.resources, d.buffers) && i < |d.buffers|
    ensures AccessKnown(d.resources, d.buffers[i].index) <==> HasKnownRange(d, i)
  {
    hide ResourceOk;
    if HasKnownRange(d, i) {
      var k :| 0 <= k < |d.resources| && d.resources[k].index == d.buffers[i].index
               && d.resources[k].byteCount > 0 && d.resources[k].access != UnknownAccess;
      ResourceForIsUnique(d.resources, k);
    }
  }

  /** The reason against recording a dispatch, if there is one. */
  lemma EligibilityTold(d: DispatchWork, flags: set<PatchFlag>)
    requires ResourcesOk(d.resources, d.buffers)
    ensures Eligibility(d, flags)
         == if flags != {} || d.scalars != [] then PatchableField
            else if exists i :: 0 <= i < |d.buffers| && !HasKnownRange(d, i) then UnknownResourceAccess
            else NoFallback
  {
    hide AccessKnown, HasKnownRange, ResourcesOk;
    forall i | 0 <= i < |d.buffers|
      ensures AccessKnown(d.resources, d.buffers[i].index) <==> HasKnownRange(d, i)
    {
      KnownRangeFound(d, i);
    }
  }

  /**
   Something is recorded exactly when the exec is a single dispatch without patchable fields or scalars,
   whose every binding has a contract that says how its bytes are accessed, and Metal has indirect command
   buffers and hands one out. A nonempty exec is one group, and otherwise that group is a fallback whose
   reason is the first of these that is missing.
   */
  lemma RecordedIff(nodes: seq<ExecNode>, available: bool, creates: bool)
    requires forall i :: 0 <= i < |nodes| ==> NodeOk(nodes[i])
    ensures var icb := BuiltIcb(nodes, available, creates);
      && icb.enabled == {UseIcb} && icb.available == available && icb.used == 0
      && icb.planned == (if nodes == [] then 0 else 1)
      && (icb.commands.Some? <==> |nodes| == 1 && available && creates && Recordable(nodes[0]))
      && icb.fallback == (if nodes == [] || icb.commands.Some? then 0 else 1)
      && (icb.reason == NoFallback <==> icb.fallback == 0)
      && (icb.reason == IneligibleNode <==> |nodes| > 1 || (|nodes| == 1 && available && !nodes[0].work.Dispatch?))
      && (icb.reason == IcbUnsupported <==> |nodes| == 1 && !available)
      && (icb.reason == PatchableField <==>
            && |nodes| == 1 && available && nodes[0].work.Dispatch?
            && (nodes[0].flags != {} || nodes[0].work.dispatch.scalars != []))
      && (icb.reason == UnknownResourceAccess <==>
            && |nodes| == 1 && available && nodes[0].work.Dispatch?
            && nodes[0].flags == {} && nodes[0].work.dispatch.scalars == [] && !Recordable(nodes[0]))
      && (icb.reason == BackendFailure <==> |nodes| == 1 && available && Recordable(nodes[0]) && !creates)
  {
    hide Eligibility, HasKnownRange, FlagsOk, ImplOk, Encode;
    if |nodes| == 1 && nodes[0].work.Dispatch? {
      assert NodeOk(nodes[0]);
      EligibilityTold(nodes[0].work.dispatch, nodes[0].flags);
    }
  }

  lemma BuiltIcbOk(nodes: seq<ExecNode>, available: bool, creates: bool, s: ExecState)
    requires forall i :: 0 <= i < |nodes| ==> NodeOk(nodes[i])
    requires s.nodes == nodes && s.icb == BuiltIcb(nodes, available, creates)
    ensures IcbOk(s)
  {
    hide NodeOk, Eligibility, HasKnownRange;
    RecordedIff(nodes, available, creates);
  }

  // ---- patches ----

  datatype Patch =
    | PatchGrid(grid: Dims)
    | PatchBuffer(index: nat, buffer: Buffer, offset: Size)
    | PatchScalar(index: nat, data: seq<nat>)
    | PatchCopy(copy: CopyWork)
    | PatchFill(fill: FillWork)
    | PatchEvent(value: nat)

  /** Every one of them is reported as an invalid argument; they tell the rejecting checks apart. */
  datatype PatchError =
    | LaunchInFlight | NoSuchNode | WrongKind | NotPatchable | BadArgument | GridTooLarge
    | OtherDevice | NoDeclaredRange | BadRange | WrongSize | NoSuchBinding

  datatype PatchResult = Patched(work: Work) | Refused(error: PatchError)

  /** The first scalar with this index. */
  function ScalarFor(scalars: seq<Scalar>, index: nat): (r: Option<nat>)
    ensures r.Some? ==> r.value < |scalars| && scalars[r.value].index == index
    ensures r.Some? ==> forall k :: 0 <= k < r.value ==> scalars[k].index != index
    ensures r.None? ==> forall k :: 0 <= k < |scalars| ==> scalars[k].index != index
  {
    if |scalars| == 0 then None
    else if scalars[0].index == index then Some(0)
    else match ScalarFor(scalars[1..], index)
         case Some(k) =>
           assert forall j :: 1 <= j < |scalars| ==> scalars[j] == scalars[1..][j - 1];
           Some(k + 1)
         case None => None
  }

  function GridPatched(d: DispatchWork, flags: set<PatchFlag>, grid: Dims): PatchResult {
    if DispatchGrid !in flags then Refused(NotPatchable)
    else if !DimsValid(grid) then Refused(BadArgument)
    else if !DimsWithin(grid, d.maxGrid) then Refused(GridTooLarge)
    else Patched(Dispatch(d.(grid := grid)))
  }

  function BufferPatched(
    d: DispatchWork, flags: set<PatchFlag>, device: Option<nat>, index: nat, buffer: Buffer, offset: Size): PatchResult
  {
    if DispatchBuffer !in flags then Refused(NotPatchable)
    else if offset > buffer.length then Refused(BadArgument)
    else if device.Some? && device.value != buffer.device then Refused(OtherDevice)
    else match BindingFor(d.buffers, index)
         case None => Refused(NoSuchBinding)
         case Some(k) =>
           if !HasRange(d.resources, index) then Refused(NoDeclaredRange)
           else
             var resource := ResourceFor(d.resources, index).value;
             if !ResourceOffsetAligned(resource, offset)
                || !ResourceRangeValid(resource, buffer.length, offset) then Refused(BadRange)
             else Patched(Dispatch(d.(buffers := d.buffers[k := Binding(index, buffer, offset)])))
  }

  function ScalarPatched(d: DispatchWork, flags: set<PatchFlag>, index: nat, data: seq<nat>): PatchResult {
    if DispatchScalar !in flags then Refused(NotPatchable)
    else if |data| == 0 then Refused(BadArgument)
    else match ScalarFor(d.scalars, index)
         case None => Refused(NoSuchBinding)
         case Some(k) =>
           if |d.scalars[k].data| != |data| then Refused(WrongSize)
           else Patched(Dispatch(d.(scalars := d.scalars[k := Scalar(index, data)])))
  }

  function CopyPatched(old_: CopyWork, flags: set<PatchFlag>, c: CopyWork): PatchResult {
    if !RangeValid(c.src.length, c.srcOffset, c.byteCount)
       || !RangeValid(c.dst.length, c.dstOffset, c.byteCount) then Refused(BadArgument)
    else if (c.src != old_.src || c.dst != old_.dst) && CopyBuffer !in flags then Refused(NotPatchable)
    else if (c.srcOffset != old_.srcOffset || c.dstOffset != old_.dstOffset || c.byteCount != old_.byteCount)
            && CopyRange !in flags then Refused(NotPatchable)
    else Patched(Copy(c))
  }

  function FillPatched(old_: FillWork, flags: set<PatchFlag>, f: FillWork): PatchResult {
    if !RangeValid(f.dst.length, f.dstOffset, f.byteCount) then Refused(BadArgument)
    else if f.dst != old_.dst && FillBuffer !in flags then Refused(NotPatchable)
    else if (f.dstOffset != old_.dstOffset || f.byteCount != old_.byteCount) && FillRange !in flags
    then Refused(NotPatchable)
    else if f.value != old_.value && FillValue !in flags then Refused(NotPatchable)
    else Patched(Fill(f))
  }

  /** The checks of one patch operation on the node it names, and the node's work afterwards. */
  function PatchedWork(n: ExecNode, device: Option<nat>, p: Patch): PatchResult {
    match p
    case PatchGrid(grid) =>
      if !n.work.Dispatch? then Refused(WrongKind) else GridPatched(n.work.dispatch, n.flags, grid)
    case PatchBuffer(index, buffer, offset) =>
      if !n.work.Dispatch? then Refused(WrongKind)
      else BufferPatched(n.work.dispatch, n.flags, device, index, buffer, offset)
    case PatchScalar(index, data) =>
      if !n.work.Dispatch? then Refused(WrongKind) else ScalarPatched(n.work.dispatch, n.flags, index, data)
    case PatchCopy(c) =>
      if !n.work.Copy? then Refused(WrongKind) else CopyPatched(n.work.copy, n.flags, c)
    case PatchFill(f) =>
      if !n.work.Fill? then Refused(WrongKind) else FillPatched(n.work.fill, n.flags, f)
    case PatchEvent(value) =>
      if !n.work.EventWait? && !n.work.EventSignal? then Refused(WrongKind)
      else if EventValue !in n.flags then Refused(NotPatchable)
      else Patched(if n.work.EventWait? then EventWait(n.work.event, value) else EventSignal(n.work.event, value))
  }

  /** Kinds the search by identifier looks at; the others are never found. */
  predicate Searchable(w: Work) {
    !w.TensorGraph? && !w.Workspace? && !w.WorkspaceFill?
  }

  /** The position a search for the identifier stops at. */
  function FindNode(nodes: seq<ExecNode>, id: NodeId): (r: Option<nat>)
    ensures r.Some? ==> r.value < |nodes| && nodes[r.value].id == id && Searchable(nodes[r.value].work)
    ensures r.Some? ==> forall k :: 0 <= k < r.value ==> !(nodes[k].id == id && Searchable(nodes[k].work))
    ensures r.None? ==> forall k :: 0 <= k < |nodes| ==> !(nodes[k].id == id && Searchable(nodes[k].work))
  {
    if |nodes| == 0 then None
    else if nodes[0].id == id && Searchable(nodes[0].work) then Some(0)
    else match FindNode(nodes[1..], id)
         case Some(k) =>
           assert forall j :: 1 <= j < |nodes| ==> nodes[j] == nodes[1..][j - 1];
           Some(k + 1)
         case None => None
  }

  /** The whole patch operation: which node it changes and how, or why it changes nothing. */
  datatype PatchPlan = Change(index: nat, work: Work) | Reject(error: PatchError)

  function PlanPatch(s: ExecState, id: NodeId, p: Patch): (r: PatchPlan)
    ensures r.Change? ==> r.index < |s.nodes| && s.nodes[r.index].id == id && s.inFlight == 0
  {
    if s.inFlight > 0 then Reject(LaunchInFlight)
    else if id == INVALID_NODE_ID then Reject(NoSuchNode)
    else match FindNode(s.nodes, id)
         case None => Reject(NoSuchNode)
         case Some(k) =>
           match PatchedWork(s.nodes[k], s.device, p)
           case Patched(w) => Change(k, w)
           case Refused(e) => Reject(e)
  }

  function WithWork(s: ExecState, k: nat, w: Work): ExecState
    requires k < |s.nodes|
  {
    s.(nodes := s.nodes[k := s.nodes[k].(work := w)])
  }

  function AfterPatch(s: ExecState, id: NodeId, p: Patch): ExecState {
    match PlanPatch(s, id, p)
    case Change(k, w) => WithWork(s, k, w)
    case Reject(_) => s
  }

  // ---- what patches may change ----

  /** `e` is `d` with nothing changed but declared fields, and shapes kept even there. */
  ghost predicate DispatchFrozen(flags: set<PatchFlag>, d: DispatchWork, e: DispatchWork) {
    && e == d.(grid := e.grid, buffers := e.buffers, scalars := e.scalars)
    && (DispatchGrid !in flags ==> e.grid == d.grid)
    && (DispatchBuffer !in flags ==> e.buffers == d.buffers)
    && (DispatchScalar !in flags ==> e.scalars == d.scalars)
    && |e.buffers| == |d.buffers|
    && (forall i :: 0 <= i < |d.buffers| ==> e.buffers[i].index == d.buffers[i].index)
    && |e.scalars| == |d.scalars|
    && (forall i :: 0 <= i < |d.scalars| ==>
          e.scalars[i].index == d.scalars[i].index && |e.scalars[i].data| == |d.scalars[i].data|)
  }

  ghost predicate WorkFrozen(flags: set<PatchFlag>, w: Work, v: Work) {
    match w
    case Dispatch(d) => v.Dispatch? && DispatchFrozen(flags, d, v.dispatch)
    case Copy(c) =>
      && v.Copy?
      && (CopyBuffer !in flags ==> v.copy.src == c.src && v.copy.dst == c.dst)
      && (CopyRange !in flags ==>
            v.copy.srcOffset == c.srcOffset && v.copy.dstOffset == c.dstOffset && v.copy.byteCount == c.byteCount)
    case Fill(f) =>
      && v.Fill?
      && (FillBuffer !in flags ==> v.fill.dst == f.dst)
      && (FillRange !in flags ==> v.fill.dstOffset == f.dstOffset && v.fill.byteCount == f.byteCount)
      && (FillValue !in flags ==> v.fill.value == f.value)
    case EventWait(e, value) => v.EventWait? && v.event == e && (EventValue !in flags ==> v.value == value)
    case EventSignal(e, value) => v.EventSignal? && v.event == e && (EventValue !in flags ==> v.value == value)
    case _ => v == w
  }

  /** Same node but for declared fields. */
  ghost predicate NodeFrozen(n: ExecNode, m: ExecNode) {
    m == n.(work := m.work) && WorkFrozen(n.flags, n.work, m.work)
  }

  /** Everything instantiation froze is still there. */
  ghost predicate ExecFrozen(s: ExecState, t: ExecState) {
    && |t.nodes| == |s.nodes|
    && (forall i :: 0 <= i < |s.nodes| ==> NodeFrozen(s.nodes[i], t.nodes[i]))
    && t.device == s.device && t.plan == s.plan && t.hasWorkspace == s.hasWorkspace
    && t.icb.commands == s.icb.commands && t.icb.available == s.icb.available && t.icb.planned == s.icb.planned
  }

  lemma WorkFrozenTransitive(flags: set<PatchFlag>, a: Work, b: Work, c: Work)
    requires WorkFrozen(flags, a, b) && WorkFrozen(flags, b, c)
    ensures WorkFrozen(flags, a, c)
  {
  }

  lemma ExecFrozenTransitive(s: ExecState, t: ExecState, u: ExecState)
    requires ExecFrozen(s, t) && ExecFrozen(t, u)
    ensures ExecFrozen(s, u)
  {
    hide WorkFrozen;
    forall i | 0 <= i < |s.nodes|
      ensures NodeFrozen(s.nodes[i], u.nodes[i])
    {
      assert NodeFrozen(s.nodes[i], t.nodes[i]) && NodeFrozen(t.nodes[i], u.nodes[i]);
      WorkFrozenTransitive(s.nodes[i].flags, s.nodes[i].work, t.nodes[i].work, u.nodes[i].work);
    }
  }

  lemma WorkFrozenReflexive(flags: set<PatchFlag>, w: Work)
    ensures WorkFrozen(flags, w, w)
  {
  }

  lemma ExecFrozenReflexive(s: ExecState)
    ensures ExecFrozen(s, s)
  {
    hide WorkFrozen;
    forall i | 0 <= i < |s.nodes|
      ensures NodeFrozen(s.nodes[i], s.nodes[i])
    {
      WorkFrozenReflexive(s.nodes[i].flags, s.nodes[i].work);
    }
  }

  lemma PatchedWorkIsFrozen(n: ExecNode, device: Option<nat>, p: Patch)
    requires PatchedWork(n, device, p).Patched?
    ensures WorkFrozen(n.flags, n.work, PatchedWork(n, device, p).work)
    ensures n.flags != {}
      || (n.work.Copy? && PatchedWork(n, device, p).work == n.work)
      || (n.work.Fill? && PatchedWork(n, device, p).work == n.work)
  {
  }

  /**
   A rejected patch changes nothing. An accepted one happens with no launch in flight, changes only
   the node it names, and of that node only fields whose flag was declared.
   */
  lemma PatchChangesOnlyDeclared(s: ExecState, id: NodeId, p: Patch)
    ensures PlanPatch(s, id, p).Reject? ==> AfterPatch(s, id, p) == s
    ensures PlanPatch(s, id, p).Change? ==> s.inFlight == 0
    ensures ExecFrozen(s, AfterPatch(s, id, p))
    ensures forall i :: 0 <= i < |s.nodes| && s.nodes[i].id != id ==> AfterPatch(s, id, p).nodes[i] == s.nodes[i]
  {
    hide WorkFrozen, PatchedWork;
    ExecFrozenReflexive(s);
    if PlanPatch(s, id, p).Change? {
      PatchedWorkIsFrozen(s.nodes[FindNode(s.nodes, id).value], s.device, p);
    }
  }

  // ---- what every reachable exec satisfies ----

  predicate ImplOk(n: ExecNode) {
    && (n.work.Dispatch? ==> n.impl == Pipeline(n.work.dispatch.metallib, n.work.dispatch.kernel))
    && (n.work.TensorGraph? ==> n.impl == Executable(n.work.package))
  }

  predicate NodeOk(n: ExecNode) {
    WorkOk(n.work) && FlagsOk(n.work, n.flags) && ImplOk(n)
  }

  /** Distinct identifiers, counted from one. */
  predicate IdsOk(nodes: seq<ExecNode>) {
    && (forall i, j :: 0 <= i < j < |nodes| ==> nodes[i].id != nodes[j].id)
    && (forall i :: 0 <= i < |nodes| ==> 0 < nodes[i].id <= |nodes|)
  }

  /** A workspace node's slice is the plan's record for it. */
  predicate SliceOk(plan: Plan, n: ExecNode) {
    match RequirementOf(Node(n.id, n.flags, n.work))
    case Some(r) => Record(r.node, r.size, r.alignment, n.offset) in plan.records
    case None => true
  }

  /** Slices of distinct nodes are disjoint and all lie inside the planned total. */
  predicate PlanOk(plan: Plan) {
    && (forall k :: 0 <= k < |plan.records| ==>
          plan.records[k].offset + plan.records[k].size <= plan.totalSize)
    && (forall j, k :: 0 <= j < k < |plan.records| ==>
          plan.records[j].offset + plan.records[j].size <= plan.records[k].offset)
    && plan.totalSize <= SIZE_MAX
  }

  predicate ExecOk(s: ExecState) {
    && (forall i :: 0 <= i < |s.nodes| ==> NodeOk(s.nodes[i]) && SliceOk(s.plan, s.nodes[i]))
    && IdsOk(s.nodes)
    && PlanOk(s.plan)
    && s.hasWorkspace == (s.plan.totalSize > 0)
    && IcbOk(s)
  }

  lemma BindingForSameIndices(a: seq<Binding>, b: seq<Binding>, index: nat)
    requires |a| == |b| && forall i :: 0 <= i < |a| ==> a[i].index == b[i].index
    ensures BindingFor(a, index) == BindingFor(b, index)
  {
  }

  lemma ResourceForIsUnique(resources: seq<Resource>, k: nat)
    requires k < |resources|
    requires forall i, j :: 0 <= i < j < |resources| ==> resources[i].index != resources[j].index
    ensures ResourceFor(resources, resources[k].index) == Some(resources[k])
  {
    var r := ResourceFor(resources, resources[k].index);
    var j :| 0 <= j < |resources| && resources[j] == r.value;
  }

  /** Replacing a binding by one that meets its contract keeps all contracts met. */
  lemma RebindKeepsResources(d: DispatchWork, k: nat, b: Binding)
    requires DispatchOk(d) && k < |d.buffers| && b.index == d.buffers[k].index
    requires BindingFor(d.buffers, b.index) == Some(k)
    requires ResourceFor(d.resources, b.index).Some?
    requires ResourceOffsetAligned(ResourceFor(d.resources, b.index).value, b.offset)
    requires ResourceRangeValid(ResourceFor(d.resources, b.index).value, b.buffer.length, b.offset)
    ensures ResourcesOk(d.resources, d.buffers[k := b])
  {
    hide BindingsOk, ScalarsOk, ResourceOffsetAligned, ResourceRangeValid;
    forall i | 0 <= i < |d.resources|
      ensures ResourceOk(d.resources[i], d.buffers[k := b])
    {
      assert ResourceOk(d.resources[i], d.buffers);
      BindingForSameIndices(d.buffers, d.buffers[k := b], d.resources[i].index);
      ResourceForIsUnique(d.resources, i);
    }
  }

  lemma BufferPatchOk(
      d: DispatchWork, flags: set<PatchFlag>, device: Option<nat>, index: nat, buffer: Buffer, offset: Size)
    requires DispatchOk(d) && FlagsOk(Dispatch(d), flags)
    requires BufferPatched(d, flags, device, index, buffer, offset).Patched?
    ensures DispatchOk(BufferPatched(d, flags, device, index, buffer, offset).work.dispatch)
    ensures FlagsOk(BufferPatched(d, flags, device, index, buffer, offset).work, flags)
  {
    hide ResourcesOk, ScalarsOk, DimsValid, DimsWithin, ResourceOffsetAligned, ResourceRangeValid;
    var k := BindingFor(d.buffers, index).value;
    RebindKeepsResources(d, k, Binding(index, buffer, offset));
  }

  lemma DispatchPatchOk(n: ExecNode, device: Option<nat>, p: Patch)
    requires NodeOk(n) && n.work.Dispatch? && PatchedWork(n, device, p).Patched?
    ensures NodeOk(n.(work := PatchedWork(n, device, p).work))
  {
    hide ResourcesOk, BindingsOk;
    if p.PatchBuffer? {
      hide BufferPatched;
      BufferPatchOk(n.work.dispatch, n.flags, device, p.index, p.buffer, p.offset);
      PatchedWorkIsFrozen(n, device, p);
    }
  }

  lemma NodePatchOk(n: ExecNode, device: Option<nat>, p: Patch)
    requires NodeOk(n) && PatchedWork(n, device, p).Patched?
    ensures NodeOk(n.(work := PatchedWork(n, device, p).work))
  {
    if n.work.Dispatch? {
      DispatchPatchOk(n, device, p);
    }
  }

  /** No accepted patch touches an exec that holds a recording, except with what is there already. */
  lemma PatchKeepsOk(s: ExecState, id: NodeId, p: Patch)
    requires ExecOk(s)
    ensures ExecOk(AfterPatch(s, id, p))
  {
    hide PatchedWork, NodeOk, PlanOk, Encode;
    if PlanPatch(s, id, p).Change? {
      var k := FindNode(s.nodes, id).value;
      NodePatchOk(s.nodes[k], s.device, p);
      PatchedWorkIsFrozen(s.nodes[k], s.device, p);
    }
  }

  /** The check for a declared range never fires on an exec: the flag could not have been declared. */
  lemma DeclaredRangeCheckIsUnreachable(s: ExecState, id: NodeId, p: Patch)
    requires ExecOk(s)
    ensures PlanPatch(s, id, p) != Reject(NoDeclaredRange)
  {
    hide PlanOk, IcbOk, WorkOk, SliceOk;
    if s.inFlight == 0 && id != INVALID_NODE_ID {
      var k := FindNode(s.nodes, id);
      if k.Some? && p.PatchBuffer? && s.nodes[k.value].work.Dispatch? {
        var n := s.nodes[k.value];
        assert NodeOk(n);
        var b := BindingFor(n.work.dispatch.buffers, p.index);
        if b.Some? && DispatchBuffer in n.flags {
          assert HasRange(n.work.dispatch.resources, n.work.dispatch.buffers[b.value].index);
        }
      }
    }
  }

  /** What a patch does to the references of the exec. */
  lemma PatchExchangesRefs(s: ExecState, k: nat, w: Work)
    requires k < |s.nodes|
    ensures WorkRefs(s.nodes[k].work) <= ExecRefs(s)
    ensures ExecRefs(WithWork(s, k, w)) == ExecRefs(s) - WorkRefs(s.nodes[k].work) + WorkRefs(w)
  {
    hide WorkRefs, WorksRefs, ArenaRefs;
    assert ExecWorks(WithWork(s, k, w).nodes) == ExecWorks(s.nodes)[k := w];
    WorksRefsUpdate(ExecWorks(s.nodes), k, w);
  }

  // ---- runs of operations on one exec ----

  datatype ExecOp =
    | OpPatch(id: NodeId, patch: Patch)
    | OpSetOptimization(flags: set<OptFlag>)
    | OpLaunch
    | OpFailedLaunch(point: FailurePoint)
    | OpComplete

  function AfterSetOptimization(s: ExecState, flags: set<OptFlag>): ExecState {
    if s.inFlight > 0 || !(flags <= {UseIcb}) then s else s.(icb := s.icb.(enabled := flags))
  }

  /** A failed launch may leave counters behind, nothing else. */
  function AfterFailedLaunch(s: ExecState, point: FailurePoint): ExecState {
    s.(icb := LeftIcb(s.icb, point))
  }

  function AfterComplete(s: ExecState): ExecState {
    if s.inFlight > 0 then s.(inFlight := s.inFlight - 1) else s
  }

  function Step(s: ExecState, op: ExecOp): ExecState {
    match op
    case OpPatch(id, p) => AfterPatch(s, id, p)
    case OpSetOptimization(flags) => AfterSetOptimization(s, flags)
    case OpLaunch => AfterLaunch(s)
    case OpFailedLaunch(point) => AfterFailedLaunch(s, point)
    case OpComplete => AfterComplete(s)
  }

  function Run(s: ExecState, ops: seq<ExecOp>): ExecState {
    if |ops| == 0 then s else Step(Run(s, ops[..|ops| - 1]), ops[|ops| - 1])
  }

  lemma CountersKeepEnabled(icb: Icb, empty: bool, enabled: set<OptFlag>)
    requires CountersOk(icb, empty)
    ensures CountersOk(icb.(enabled := enabled), empty)
  {
  }

  lemma StepKeepsOk(s: ExecState, op: ExecOp)
    requires ExecOk(s)
    ensures ExecOk(Step(s, op))
    ensures ExecFrozen(s, Step(s, op))
  {
    hide AfterPatch, NodeOk, PlanOk, NodeFrozen, SliceOk, BegunIcb, LaunchedIcb, CountersOk;
    ExecFrozenReflexive(s);
    if op.OpLaunch? {
      LeftIcbOk(s.icb, s.nodes == [], AfterReplay);
    }
    if op.OpFailedLaunch? {
      LeftIcbOk(s.icb, s.nodes == [], op.point);
    }
    if op.OpSetOptimization? {
      CountersKeepEnabled(s.icb, s.nodes == [], op.flags);
    }
    if op.OpPatch? {
      PatchKeepsOk(s, op.id, op.patch);
      PatchChangesOnlyDeclared(s, op.id, op.patch);
    }
  }

  /**
   Over any run of patches, flag changes, launches and completions, an exec stays well formed and
   keeps everything instantiation froze.
   */
  lemma {:induction false} RunsStayFrozen(s: ExecState, ops: seq<ExecOp>)
    requires ExecOk(s)
    ensures ExecOk(Run(s, ops))
    ensures ExecFrozen(s, Run(s, ops))
  {
    hide ExecOk, ExecFrozen;
    if |ops| == 0 {
      ExecFrozenReflexive(s);
    } else {
      var before := Run(s, ops[..|ops| - 1]);
      RunsStayFrozen(s, ops[..|ops| - 1]);
      StepKeepsOk(before, ops[|ops| - 1]);
      ExecFrozenTransitive(s, before, Run(s, ops));
    }
  }

  /**
   In every state a run can reach, a launch commits exactly the directly encoded commands, whatever
   the optimization flags are.
   */
  lemma OptimizationIsInvisible(s: ExecState, ops: seq<ExecOp>, enabled: set<OptFlag>)
    requires ExecOk(s)
    ensures var t := Run(s, ops);
      && LaunchSegments(t) == Segments(t.nodes)
      && LaunchSegments(t.(icb := t.icb.(enabled := enabled))) == LaunchSegments(t)
      && Flatten(LaunchSegments(t)) == EncodeAll(t.nodes)
  {
    hide Encode, EncodeAll, Segments, WellSegmented, Flatten;
    RunsStayFrozen(s, ops);
    var t := Run(s, ops);
    ReplayAgrees(t);
    ReplayAgrees(t.(icb := t.icb.(enabled := enabled)));
    SegmentationPreservesMeaning(t.nodes);
  }

  /** A launch that got as far as its counters while the optimization was off. */
  predicate BegunDisabled(s: ExecState, op: ExecOp) {
    UseIcb !in s.icb.enabled && (op.OpLaunch? || (op.OpFailedLaunch? && op.point != BeforeCounters))
  }

  ghost predicate EverBegunDisabled(s: ExecState, ops: seq<ExecOp>) {
    exists k :: 0 <= k < |ops| && BegunDisabled(Run(s, ops[..k]), ops[k])
  }

  /** What a nonempty exec without a recording has reported since instantiation: some reason. */
  predicate FallsBack(icb: Icb) {
    icb.planned > 0 && icb.commands.None? && icb.reason != NoFallback
  }

  lemma FallsBackWhenBuilt(nodes: seq<ExecNode>, available: bool, creates: bool)
    ensures var icb := BuiltIcb(nodes, available, creates); nodes != [] && icb.commands.None? ==> FallsBack(icb)
  {
    hide Encode, Eligibility;
  }

  lemma StepReason(s: ExecState, op: ExecOp)
    requires FallsBack(s.icb)
    ensures FallsBack(Step(s, op).icb)
    ensures Step(s, op).icb.reason == if BegunDisabled(s, op) then Disabled else s.icb.reason
  {
    hide PlanPatch, WithWork;
    if op.OpPatch? {
      PatchKeepsIcb(s, op.id, op.patch);
    }
  }

  lemma PatchKeepsIcb(s: ExecState, id: NodeId, p: Patch)
    ensures AfterPatch(s, id, p).icb == s.icb
  {
    hide PatchedWork;
  }

  /**
   Over a run of an exec without a recording, the reported reason is the one instantiation noted until
   some launch is begun with the optimization off; from then on it is that the optimization is off,
   however often it is enabled again.
   */
  lemma {:induction false} DisabledReasonIff(s: ExecState, ops: seq<ExecOp>)
    requires FallsBack(s.icb)
    ensures FallsBack(Run(s, ops).icb)
    ensures Run(s, ops).icb.reason == if EverBegunDisabled(s, ops) then Disabled else s.icb.reason
  {
    hide Step, BegunDisabled, FallsBack;
    if |ops| > 0 {
      var n := |ops| - 1;
      DisabledReasonIff(s, ops[..n]);
      StepReason(Run(s, ops[..n]), ops[n]);
      EverBegunDisabledStep(s, ops);
    }
  }

  lemma EverBegunDisabledStep(s: ExecState, ops: seq<ExecOp>)
    requires |ops| > 0
    ensures EverBegunDisabled(s, ops)
       <==> EverBegunDisabled(s, ops[..|ops| - 1]) || BegunDisabled(Run(s, ops[..|ops| - 1]), ops[|ops| - 1])
  {
    hide Run, BegunDisabled;
    var n := |ops| - 1;
    assert forall k :: 0 <= k < n ==> ops[..n][..k] == ops[..k] && ops[..n][k] == ops[k];
  }
}
