/** The scheduler: Kahn's algorithm over the edge list with in-place counters and a FIFO queue. */
module Kahn {
  import opened Prelude
  import opened Model
  import opened Topology

  /** Edges into `v` whose source is not in `done`. */
  function Pending(edges: seq<Edge>, done: set<nat>, v: nat): nat {
    if |edges| == 0 then 0
    else
      var e := edges[|edges| - 1];
      Pending(edges[..|edges| - 1], done, v) + (if e.after == v && e.before !in done then 1 else 0)
  }

  lemma {:induction false} PendingConcat(a: seq<Edge>, b: seq<Edge>, done: set<nat>, v: nat)
    ensures Pending(a + b, done, v) == Pending(a, done, v) + Pending(b, done, v)
  {
    if |b| == 0 {
      assert a + b == a;
    } else {
      var m := |b| - 1;
      PendingConcat(a, b[..m], done, v);
      assert (a + b)[..|a + b| - 1] == a + b[..m];
    }
  }

  lemma PendingSplit(edges: seq<Edge>, i: nat, done: set<nat>, v: nat)
    requires i < |edges|
    ensures Pending(edges[..i + 1], done, v)
         == Pending(edges[..i], done, v)
          + (if edges[i].after == v && edges[i].before !in done then 1 else 0)
    ensures Pending(edges[i..], done, v)
         == Pending(edges[i + 1..], done, v)
          + (if edges[i].after == v && edges[i].before !in done then 1 else 0)
  {
    assert edges[..i + 1][..i] == edges[..i];
    assert edges[i..] == [edges[i]] + edges[i + 1..];
    PendingConcat([edges[i]], edges[i + 1..], done, v);
    assert [edges[i]][..0] == [];
  }

  /** No pending edge means every predecessor is done; a pending edge gives one that is not. */
  lemma {:induction false} PendingZero(edges: seq<Edge>, done: set<nat>, v: nat)
    ensures Pending(edges, done, v) == 0
       <==> forall k :: 0 <= k < |edges| && edges[k].after == v ==> edges[k].before in done
  {
    if |edges| > 0 {
      var m := |edges| - 1;
      PendingZero(edges[..m], done, v);
      assert forall k :: 0 <= k < m ==> edges[..m][k] == edges[k];
    }
  }

  /** Where the counters stand after `i` edges of the scan for `current`. */
  ghost predicate CountersAt(
    indegree: seq<nat>, edges: seq<Edge>, n: nat, done: set<nat>, current: nat, i: nat)
    requires i <= |edges|
  {
    && |indegree| == n
    && forall v :: 0 <= v < n ==>
         indegree[v] == Pending(edges[..i], done + {current}, v) + Pending(edges[i..], done, v)
  }

  lemma CountersStart(indegree: seq<nat>, edges: seq<Edge>, n: nat, done: set<nat>, current: nat)
    requires |indegree| == n
    requires forall v :: 0 <= v < n ==> indegree[v] == Pending(edges, done, v)
    ensures CountersAt(indegree, edges, n, done, current, 0)
  {
    assert edges[..0] == [] && edges[0..] == edges;
  }

  lemma CountersEnd(indegree: seq<nat>, edges: seq<Edge>, n: nat, done: set<nat>, current: nat)
    requires CountersAt(indegree, edges, n, done, current, |edges|)
    ensures forall v :: 0 <= v < n ==> indegree[v] == Pending(edges, done + {current}, v)
  {
    assert edges[..|edges|] == edges && edges[|edges|..] == [];
  }

  /** An edge of another node leaves the accounting as it is. */
  lemma CountersSkip(indegree: seq<nat>, edges: seq<Edge>, n: nat, done: set<nat>, current: nat, i: nat)
    requires i < |edges| && CountersAt(indegree, edges, n, done, current, i)
    requires edges[i].before != current
    ensures CountersAt(indegree, edges, n, done, current, i + 1)
  {
    forall v | 0 <= v < n
      ensures indegree[v] == Pending(edges[..i + 1], done + {current}, v) + Pending(edges[i + 1..], done, v)
    {
      PendingSplit(edges, i, done, v);
      PendingSplit(edges, i, done + {current}, v);
    }
  }

  /** An edge of the current node has a positive counter to take one from. */
  lemma CountersTake(indegree: seq<nat>, edges: seq<Edge>, n: nat, done: set<nat>, current: nat, i: nat)
    requires i < |edges| && CountersAt(indegree, edges, n, done, current, i)
    requires edges[i].before == current && current !in done && edges[i].after < n
    ensures indegree[edges[i].after] > 0
    ensures CountersAt(indegree[edges[i].after := indegree[edges[i].after] - 1],
                       edges, n, done, current, i + 1)
  {
    var next := edges[i].after;
    forall v | 0 <= v < n
      ensures indegree[v]
           == (if v == next then 1 else 0)
              + Pending(edges[..i + 1], done + {current}, v) + Pending(edges[i + 1..], done, v)
    {
      PendingSplit(edges, i, done, v);
      PendingSplit(edges, i, done + {current}, v);
    }
  }

  /** A counter at zero in mid-scan: every predecessor is done or current. */
  lemma CountersZero(indegree: seq<nat>, edges: seq<Edge>, n: nat, done: set<nat>, current: nat, i: nat, v: nat)
    requires i <= |edges| && CountersAt(indegree, edges, n, done, current, i)
    requires v < n && indegree[v] == 0
    ensures forall k :: 0 <= k < |edges| && edges[k].after == v ==> edges[k].before in done + {current}
  {
    PendingZero(edges[..i], done + {current}, v);
    PendingZero(edges[i..], done, v);
    forall k | 0 <= k < |edges| && edges[k].after == v
      ensures edges[k].before in done + {current}
    {
      if k < i {
        assert edges[..i][k] == edges[k];
      } else {
        assert edges[i..][k - i] == edges[k];
      }
    }
  }

  // ---- the queue ----

  /** `u` is among the first `j` entries. */
  ghost predicate Ahead(q: seq<nat>, u: nat, j: nat)
    requires j <= |q|
  {
    exists i :: 0 <= i < j && q[i] == u
  }

  /** Every predecessor of a queued node is queued ahead of it, on a lower level. */
  ghost predicate PredecessorsAhead(q: seq<nat>, level: seq<nat>, edges: seq<Edge>)
    requires EdgesInRange(edges, |level|)
  {
    forall j, k :: 0 <= j < |q| && 0 <= k < |edges| && edges[k].after == q[j] ==>
      Ahead(q, edges[k].before, j) && level[edges[k].before] < level[edges[k].after]
  }

  /** Some edge into `v` comes from a queued node exactly one level below. */
  ghost predicate RaisedBy(q: seq<nat>, level: seq<nat>, edges: seq<Edge>, v: nat)
    requires EdgesInRange(edges, |level|) && v < |level|
  {
    exists k :: 0 <= k < |edges| && edges[k].after == v && edges[k].before in q
             && level[v] == level[edges[k].before] + 1
  }

  ghost predicate AllRaised(q: seq<nat>, level: seq<nat>, edges: seq<Edge>)
    requires EdgesInRange(edges, |level|) && IsSelection(q, |level|)
  {
    forall j :: 0 <= j < |q| && level[q[j]] > 0 ==> RaisedBy(q, level, edges, q[j])
  }

  /**
   What holds of the queue at all times: distinct nodes, predecessors ahead of their successors,
   levels that record the longest path seen, and levels that never fall along the queue.
   */
  ghost predicate QueueOk(q: seq<nat>, level: seq<nat>, edges: seq<Edge>, n: nat) {
    && |level| == n && IsSelection(q, n) && EdgesInRange(edges, n)
    && PredecessorsAhead(q, level, edges)
    && AllRaised(q, level, edges)
    && SortedByLevel(q, level)
  }

  lemma EnqueueSource(q: seq<nat>, level: seq<nat>, edges: seq<Edge>, n: nat, v: nat)
    requires QueueOk(q, level, edges, n) && v < n && v !in q
    requires forall k :: 0 <= k < |edges| ==> edges[k].after != v
    requires forall u :: 0 <= u < n ==> level[u] == 0
    ensures QueueOk(q + [v], level, edges, n) && |q| < n
  {
    SelectionCovers(q + [v], n);
    assert forall j, k :: 0 <= j < |q| && 0 <= k < |edges| ==> edges[k].after != q[j];
  }

  /** What the mid-scan accounting licenses: the next node has all predecessors out. */
  ghost predicate MayEnqueue(q: seq<nat>, level: seq<nat>, edges: seq<Edge>, n: nat, head: nat, e: nat) {
    && QueueOk(q, level, edges, n) && head < |q| && e < |edges|
    && edges[e].before == q[head] && edges[e].after !in q
    && (forall k :: 0 <= k < |edges| && edges[k].after == edges[e].after ==>
          Ahead(q, edges[k].before, head + 1))
    && level[q[|q| - 1]] <= level[q[head]] + 1
  }

  lemma NextPredecessorsAhead(q: seq<nat>, level: seq<nat>, edges: seq<Edge>, n: nat, head: nat, e: nat)
    requires MayEnqueue(q, level, edges, n, head, e)
    ensures PredecessorsAhead(
              q + [edges[e].after], level[edges[e].after := level[q[head]] + 1], edges)
  {
    hide AllRaised;
    var q', level' := q + [edges[e].after], level[edges[e].after := level[q[head]] + 1];
    forall j, k | 0 <= j < |q'| && 0 <= k < |edges| && edges[k].after == q'[j]
      ensures Ahead(q', edges[k].before, j) && level'[edges[k].before] < level'[edges[k].after]
    {
      PredecessorAhead(q, level, edges, n, head, e, j, k);
    }
  }

  lemma PredecessorAhead(
      q: seq<nat>, level: seq<nat>, edges: seq<Edge>, n: nat, head: nat, e: nat, j: nat, k: nat)
    requires MayEnqueue(q, level, edges, n, head, e)
    requires j <= |q| && k < |edges| && edges[k].after == (q + [edges[e].after])[j]
    ensures var level' := level[edges[e].after := level[q[head]] + 1];
      Ahead(q + [edges[e].after], edges[k].before, j) && level'[edges[k].before] < level'[edges[k].after]
  {
    hide AllRaised;
    var q' := q + [edges[e].after];
    var bound := if j < |q| then j else head + 1;
    assert Ahead(q, edges[k].before, bound);
    var i :| 0 <= i < bound && q[i] == edges[k].before;
    assert q'[i] == q[i] && q[i] in q;
  }

  lemma NextRaised(q: seq<nat>, level: seq<nat>, edges: seq<Edge>, n: nat, head: nat, e: nat)
    requires MayEnqueue(q, level, edges, n, head, e)
    requires IsSelection(q + [edges[e].after], n)
    ensures AllRaised(q + [edges[e].after], level[edges[e].after := level[q[head]] + 1], edges)
  {
    var next := edges[e].after;
    var q' := q + [next];
    var level' := level[next := level[q[head]] + 1];
    forall j | 0 <= j < |q'| && level'[q'[j]] > 0
      ensures RaisedBy(q', level', edges, q'[j])
    {
      if j < |q| {
        assert RaisedBy(q, level, edges, q[j]);
        var k :| 0 <= k < |edges| && edges[k].after == q[j] && edges[k].before in q
              && level[q[j]] == level[edges[k].before] + 1;
        assert edges[k].before in q';
      } else {
        assert q[head] in q && edges[e].before in q';
      }
    }
  }

  lemma EnqueueNext(q: seq<nat>, level: seq<nat>, edges: seq<Edge>, n: nat, head: nat, e: nat)
    requires MayEnqueue(q, level, edges, n, head, e)
    ensures QueueOk(q + [edges[e].after], level[edges[e].after := level[q[head]] + 1], edges, n)
    ensures |q| < n
  {
    hide PredecessorsAhead, AllRaised;
    SelectionCovers(q + [edges[e].after], n);
    NextPredecessorsAhead(q, level, edges, n, head, e);
    NextRaised(q, level, edges, n, head, e);
  }

  /** A queue that took in every node is a schedule sorted by longest-path level. */
  lemma FullQueue(q: seq<nat>, level: seq<nat>, edges: seq<Edge>, n: nat)
    requires QueueOk(q, level, edges, n) && |q| == n
    ensures IsSchedule(q, edges, n) && IsLevelling(level, edges, n) && SortedByLevel(q, level)
  {
    SelectionCovers(q, n);
    forall i, j | 0 <= i < n && 0 <= j < n && Edge(q[i], q[j]) in edges
      ensures i < j
    {
      var k :| 0 <= k < |edges| && edges[k] == Edge(q[i], q[j]);
      assert Ahead(q, q[i], j);
    }
    forall k | 0 <= k < |edges|
      ensures level[edges[k].before] < level[edges[k].after]
    {
      assert edges[k].after in q;
      var j :| 0 <= j < |q| && q[j] == edges[k].after;
      assert Ahead(q, edges[k].before, j);
    }
    forall v | 0 <= v < n && level[v] > 0
      ensures exists u :: 0 <= u < n && Edge(u, v) in edges && level[v] == level[u] + 1
    {
      assert v in q;
      var j :| 0 <= j < |q| && q[j] == v;
      assert RaisedBy(q, level, edges, q[j]);
      var k :| 0 <= k < |edges| && edges[k].after == v && edges[k].before in q
            && level[v] == level[edges[k].before] + 1;
      assert Edge(edges[k].before, v) in edges;
    }
  }

  lemma LeftoversHavePredecessors(q: seq<nat>, indegree: seq<nat>, edges: seq<Edge>, n: nat)
    requires EdgesInRange(edges, n) && |indegree| == n
    requires forall v :: 0 <= v < n ==> (v in q <==> indegree[v] == 0)
    requires forall v :: 0 <= v < n ==> indegree[v] == Pending(edges, Elements(q), v)
    ensures HasNoSource(edges, Upto(n) - Elements(q))
  {
    hide Pending;
    var stuck := Upto(n) - Elements(q);
    forall v | v in stuck
      ensures HasPredecessorIn(edges, stuck, v)
    {
      PendingZero(edges, Elements(q), v);
      var k :| 0 <= k < |edges| && edges[k].after == v && edges[k].before !in Elements(q);
      assert edges[k].before in stuck && Edge(edges[k].before, v) in edges;
    }
  }

  /** A drained queue that missed a node leaves a set of nodes without sources, hence a cycle. */
  lemma StarvedQueue(q: seq<nat>, indegree: seq<nat>, edges: seq<Edge>, n: nat)
    requires IsSelection(q, n) && |q| < n && EdgesInRange(edges, n) && |indegree| == n
    requires forall v :: 0 <= v < n ==> (v in q <==> indegree[v] == 0)
    requires forall v :: 0 <= v < n ==> indegree[v] == Pending(edges, Elements(q), v)
    ensures HasNoSource(edges, Upto(n) - Elements(q))
    ensures HasCycle(edges)
  {
    LeftoversHavePredecessors(q, indegree, edges, n);
    hide HasNoSource, Pending, EdgesInRange;
    var v := Leftover(q, n);
    assert IsWalk(edges, Upto(n) - Elements(q), [v]);
    var p := CycleFrom(edges, Upto(n) - Elements(q), [v]);
  }

  lemma Leftover(q: seq<nat>, n: nat) returns (v: nat)
    requires IsSelection(q, n) && |q| < n
    ensures v in Upto(n) - Elements(q)
  {
    SelectionSize(q);
    if Upto(n) - Elements(q) == {} {
      SubsetSize(Upto(n), Elements(q));
    }
    v :| v in Upto(n) - Elements(q);
  }

  // ---- the loops ----

  ghost predicate ZeroMeansQueued(indegree: seq<nat>, q: seq<nat>, n: nat) {
    |indegree| == n && forall v :: 0 <= v < n ==> (v in q <==> indegree[v] == 0)
  }

  /** Between two scans: `head` nodes have been put out and their edges taken. */
  ghost predicate LoopState(
    q: seq<nat>, level: seq<nat>, indegree: seq<nat>, edges: seq<Edge>, n: nat, head: nat)
  {
    && QueueOk(q, level, edges, n) && head <= |q|
    && ZeroMeansQueued(indegree, q, n)
    && (forall v :: 0 <= v < n ==> indegree[v] == Pending(edges, Elements(q[..head]), v))
    && (head < |q| ==> level[q[|q| - 1]] <= level[q[head]] + 1)
  }

  /** In the scan for the node at `head`, with `i` edges looked at. */
  ghost predicate ScanState(
    q: seq<nat>, level: seq<nat>, indegree: seq<nat>, edges: seq<Edge>, n: nat, head: nat, i: nat)
  {
    && QueueOk(q, level, edges, n) && head < |q| && i <= |edges|
    && ZeroMeansQueued(indegree, q, n)
    && CountersAt(indegree, edges, n, Elements(q[..head]), q[head], i)
    && level[q[|q| - 1]] <= level[q[head]] + 1
  }

  lemma ScanBegins(q: seq<nat>, level: seq<nat>, indegree: seq<nat>, edges: seq<Edge>, n: nat, head: nat)
    requires LoopState(q, level, indegree, edges, n, head) && head < |q|
    ensures ScanState(q, level, indegree, edges, n, head, 0)
  {
    CountersStart(indegree, edges, n, Elements(q[..head]), q[head]);
  }

  lemma ScanEnds(q: seq<nat>, level: seq<nat>, indegree: seq<nat>, edges: seq<Edge>, n: nat, head: nat)
    requires ScanState(q, level, indegree, edges, n, head, |edges|)
    ensures LoopState(q, level, indegree, edges, n, head + 1)
  {
    CountersEnd(indegree, edges, n, Elements(q[..head]), q[head]);
    assert q[..head + 1] == q[..head] + [q[head]];
    assert Elements(q[..head + 1]) == Elements(q[..head]) + {q[head]};
  }

  lemma ScanSkips(q: seq<nat>, level: seq<nat>, indegree: seq<nat>, edges: seq<Edge>, n: nat, head: nat, i: nat)
    requires ScanState(q, level, indegree, edges, n, head, i) && i < |edges|
    requires edges[i].before != q[head]
    ensures ScanState(q, level, indegree, edges, n, head, i + 1)
  {
    CountersSkip(indegree, edges, n, Elements(q[..head]), q[head], i);
  }

  lemma NotYetDone(q: seq<nat>, n: nat, head: nat)
    requires IsSelection(q, n) && head < |q|
    ensures q[head] !in Elements(q[..head])
  {
  }

  /** The counter of an edge of the current node is positive, so its target is not queued yet. */
  lemma ScanTakes(q: seq<nat>, level: seq<nat>, indegree: seq<nat>, edges: seq<Edge>, n: nat, head: nat, i: nat)
    requires ScanState(q, level, indegree, edges, n, head, i) && i < |edges|
    requires edges[i].before == q[head]
    ensures q[head] < |level| == |indegree| == n && edges[i].after < n
    ensures indegree[edges[i].after] > 0 && edges[i].after !in q
    ensures CountersAt(indegree[edges[i].after := indegree[edges[i].after] - 1],
                       edges, n, Elements(q[..head]), q[head], i + 1)
  {
    NotYetDone(q, n, head);
    CountersTake(indegree, edges, n, Elements(q[..head]), q[head], i);
  }

  lemma DoneIsAhead(q: seq<nat>, edges: seq<Edge>, head: nat, v: nat)
    requires head < |q|
    requires forall k :: 0 <= k < |edges| && edges[k].after == v ==>
               edges[k].before in Elements(q[..head]) + {q[head]}
    ensures forall k :: 0 <= k < |edges| && edges[k].after == v ==> Ahead(q, edges[k].before, head + 1)
  {
    forall k | 0 <= k < |edges| && edges[k].after == v
      ensures Ahead(q, edges[k].before, head + 1)
    {
      if edges[k].before in Elements(q[..head]) {
        var i :| 0 <= i < head && q[..head][i] == edges[k].before;
        assert q[i] == edges[k].before;
      } else {
        assert q[head] == edges[k].before;
      }
    }
  }

  lemma ScanTakesOnly(q: seq<nat>, level: seq<nat>, indegree: seq<nat>, edges: seq<Edge>, n: nat, head: nat, i: nat)
    requires ScanState(q, level, indegree, edges, n, head, i) && i < |edges|
    requires edges[i].before == q[head] && edges[i].after < n && indegree[edges[i].after] > 1
    ensures ScanState(q, level, indegree[edges[i].after := indegree[edges[i].after] - 1],
                      edges, n, head, i + 1)
  {
    ScanTakes(q, level, indegree, edges, n, head, i);
  }

  /** A counter that drops to zero licenses the enqueue and keeps the scan's state. */
  lemma ScanEnqueues(
      q: seq<nat>, level: seq<nat>, indegree: seq<nat>, edges: seq<Edge>, n: nat, head: nat, i: nat)
    requires ScanState(q, level, indegree, edges, n, head, i) && i < |edges|
    requires edges[i].before == q[head] && indegree[edges[i].after] == 1
    ensures |q| < n
    ensures ScanState(q + [edges[i].after], level[edges[i].after := level[q[head]] + 1],
                      indegree[edges[i].after := 0], edges, n, head, i + 1)
  {
    var next := edges[i].after;
    var q', counters := q + [next], indegree[next := 0];
    ScanTakes(q, level, indegree, edges, n, head, i);
    CountersZero(counters, edges, n, Elements(q[..head]), q[head], i + 1, next);
    DoneIsAhead(q, edges, head, next);
    EnqueueNext(q, level, edges, n, head, i);
    assert q'[..head] == q[..head];
  }

  /** What a drained queue means: every node went out in a schedule, or there is a cycle. */
  lemma Drained(q: seq<nat>, level: seq<nat>, indegree: seq<nat>, edges: seq<Edge>, n: nat)
    requires LoopState(q, level, indegree, edges, n, |q|)
    ensures EdgesInRange(edges, n) && |q| <= n
    ensures |q| < n ==> HasCycle(edges)
    ensures |q| == n ==> IsSchedule(q, edges, n) && IsLevelling(level, edges, n) && SortedByLevel(q, level)
    ensures |q| == n ==> !HasCycle(edges)
  {
    SelectionCovers(q, n);
    assert q[..|q|] == q;
    if |q| < n {
      StarvedQueue(q, indegree, edges, n);
    } else {
      FullQueue(q, level, edges, n);
      ScheduledIsAcyclic(q, edges, n);
    }
  }

  lemma NothingToOrder(edges: seq<Edge>)
    ensures EdgesInRange(edges, 0) ==>
              IsSchedule([], edges, 0) && IsLevelling([], edges, 0) && SortedByLevel([], [])
  {
  }

  /** The outcome the scheduler owes its caller. */
  ghost function ScheduleStatus(edges: seq<Edge>, n: nat, allocates: bool): Status {
    if n == 0 then Ok
    else if !allocates then OutOfMemory
    else if EdgesInRange(edges, n) && !HasCycle(edges) then Ok
    else InvalidTopology
  }

  /**
   Orders `n` nodes. It succeeds exactly on acyclic, in-range edge lists, and then fills `order`
   with a schedule sorted by longest-path level. `allocates` says whether the two scratch arrays
   can be had.
   */
  method TopologicalOrder(n: nat, edges: seq<Edge>, order: array<nat>, allocates: bool)
    returns (status: Status, ghost level: seq<nat>)
    requires order.Length == n
    modifies order
    ensures status == ScheduleStatus(edges, n, allocates)
    ensures status == Ok && EdgesInRange(edges, n) ==>
              && IsSchedule(order[..], edges, n)
              && IsLevelling(level, edges, n)
              && SortedByLevel(order[..], level)
  {
    hide LoopState, IsSchedule, IsLevelling, SortedByLevel, HasCycle;
    level := seq(n, _ => 0);
    if n == 0 {
      assert order[..] == [] && level == [];
      NothingToOrder(edges);
      return Ok, level;
    }
    if !allocates {
      return OutOfMemory, level;
    }
    var indegree := new nat[n](_ => 0);
    var queue := new nat[n];
    var inRange := CountEdges(n, edges, indegree);
    if !inRange {
      return InvalidTopology, level;
    }
    var tail := CollectSources(n, edges, indegree, queue, level);
    var head := 0;
    var produced := 0;
    while head < tail
      invariant produced == head <= tail <= n
      invariant LoopState(queue[..tail], level, indegree[..], edges, n, head)
      invariant order[..produced] == queue[..head]
      decreases n - head
    {
      var current := queue[head];
      head := head + 1;
      order[produced] := current;
      produced := produced + 1;
      tail, level := ScanEdges(n, edges, indegree, queue, head - 1, tail, level);
    }
    Drained(queue[..tail], level, indegree[..], edges, n);
    if produced != n {
      return InvalidTopology, level;
    }
    assert order[..] == queue[..tail];
    return Ok, level;
  }

  /** Counts incoming edges, or finds one that names a missing node. */
  method CountEdges(n: nat, edges: seq<Edge>, indegree: array<nat>) returns (inRange: bool)
    requires indegree.Length == n && forall v :: 0 <= v < n ==> indegree[v] == 0
    modifies indegree
    ensures inRange <==> EdgesInRange(edges, n)
    ensures inRange ==> forall v :: 0 <= v < n ==> indegree[v] == Pending(edges, {}, v)
  {
    for i := 0 to |edges|
      invariant EdgesInRange(edges[..i], n)
      invariant forall v :: 0 <= v < n ==> indegree[v] == Pending(edges[..i], {}, v)
    {
      if edges[i].before >= n || edges[i].after >= n {
        return false;
      }
      assert edges[..i + 1] == edges[..i] + [edges[i]];
      indegree[edges[i].after] := indegree[edges[i].after] + 1;
    }
    assert edges[..|edges|] == edges;
    return true;
  }

  /** The sources among the first `i` nodes are queued. */
  ghost predicate SourcesSoFar(q: seq<nat>, level: seq<nat>, indegree: seq<nat>, edges: seq<Edge>, n: nat, i: nat) {
    && QueueOk(q, level, edges, n) && i <= n == |indegree|
    && (forall v :: v in q <==> 0 <= v < i && indegree[v] == 0)
  }

  lemma NoSourcesYet(level: seq<nat>, indegree: seq<nat>, edges: seq<Edge>, n: nat)
    requires |indegree| == |level| == n && EdgesInRange(edges, n)
    ensures SourcesSoFar([], level, indegree, edges, n, 0)
  {
  }

  lemma NextSource(q: seq<nat>, level: seq<nat>, indegree: seq<nat>, edges: seq<Edge>, n: nat, i: nat)
    requires i < n && SourcesSoFar(q, level, indegree, edges, n, i)
    requires forall u :: 0 <= u < n ==> level[u] == 0
    requires indegree[i] == Pending(edges, {}, i)
    ensures indegree[i] != 0 ==> SourcesSoFar(q, level, indegree, edges, n, i + 1)
    ensures indegree[i] == 0 ==> SourcesSoFar(q + [i], level, indegree, edges, n, i + 1)
  {
    if indegree[i] == 0 {
      PendingZero(edges, {}, i);
      hide QueueOk;
      EnqueueSource(q, level, edges, n, i);
    }
  }

  lemma AllSources(q: seq<nat>, level: seq<nat>, indegree: seq<nat>, edges: seq<Edge>, n: nat)
    requires SourcesSoFar(q, level, indegree, edges, n, n)
    requires forall u :: 0 <= u < n ==> level[u] == 0
    requires forall v :: 0 <= v < n ==> indegree[v] == Pending(edges, {}, v)
    ensures LoopState(q, level, indegree, edges, n, 0)
  {
    assert Elements(q[..0]) == {};
  }

  /** Queues the nodes without predecessors, in index order. */
  method CollectSources(n: nat, edges: seq<Edge>, indegree: array<nat>, queue: array<nat>, ghost level: seq<nat>)
    returns (tail: nat)
    requires indegree.Length == n && queue.Length == n && indegree != queue
    requires EdgesInRange(edges, n)
    requires |level| == n && forall u :: 0 <= u < n ==> level[u] == 0
    requires forall v :: 0 <= v < n ==> indegree[v] == Pending(edges, {}, v)
    modifies queue
    ensures tail <= n && LoopState(queue[..tail], level, indegree[..], edges, n, 0)
  {
    hide SourcesSoFar, LoopState, EdgesInRange;
    tail := 0;
    NoSourcesYet(level, indegree[..], edges, n);
    assert queue[..tail] == [];
    for i := 0 to n
      invariant tail <= i && SourcesSoFar(queue[..tail], level, indegree[..], edges, n, i)
    {
      NextSource(queue[..tail], level, indegree[..], edges, n, i);
      if indegree[i] == 0 {
        ghost var q := queue[..tail];
        queue[tail] := i;
        tail := tail + 1;
        assert queue[..tail] == q + [i];
      }
    }
    AllSources(queue[..tail], level, indegree[..], edges, n);
  }

  /** One scan of the edge list on behalf of the node at `head`. */
  method ScanEdges(
      n: nat, edges: seq<Edge>, indegree: array<nat>, queue: array<nat>, head: nat, tail: nat,
      ghost level: seq<nat>)
    returns (tail': nat, ghost level': seq<nat>)
    requires indegree.Length == n && queue.Length == n && indegree != queue
    requires head < tail <= n && LoopState(queue[..tail], level, indegree[..], edges, n, head)
    modifies indegree, queue
    ensures tail <= tail' <= n && queue[..tail] == old(queue[..tail])
    ensures LoopState(queue[..tail'], level', indegree[..], edges, n, head + 1)
  {
    hide QueueOk, ScanState, LoopState;
    var current := queue[head];
    tail', level' := tail, level;
    ScanBegins(queue[..tail], level, indegree[..], edges, n, head);
    for i := 0 to |edges|
      invariant tail <= tail' <= n && queue[..tail] == old(queue[..tail])
      invariant queue[head] == current
      invariant ScanState(queue[..tail'], level', indegree[..], edges, n, head, i)
    {
      if edges[i].before != current {
        ScanSkips(queue[..tail'], level', indegree[..], edges, n, head, i);
        continue;
      }
      ghost var q, counters := queue[..tail'], indegree[..];
      var next := edges[i].after;
      ScanTakes(q, level', counters, edges, n, head, i);
      indegree[next] := indegree[next] - 1;
      assert indegree[..] == counters[next := counters[next] - 1];
      if indegree[next] == 0 {
        ScanEnqueues(q, level', counters, edges, n, head, i);
        queue[tail'] := next;
        level' := level'[next := level'[current] + 1];
        assert queue[..tail' + 1] == q + [next];
        tail' := tail' + 1;
      } else {
        ScanTakesOnly(q, level', counters, edges, n, head, i);
      }
    }
    ScanEnds(queue[..tail'], level', indegree[..], edges, n, head);
  }
}
