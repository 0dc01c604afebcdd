/** Paths, cycles, schedules and longest-path levels of a dependency graph given by its edge list. */
module Topology {
  import opened Prelude
  import opened Model

  ghost predicate IsPath(edges: seq<Edge>, p: seq<nat>) {
    |p| > 0 && forall i :: 0 <= i < |p| - 1 ==> Edge(p[i], p[i + 1]) in edges
  }

  ghost predicate IsCycle(edges: seq<Edge>, p: seq<nat>) {
    IsPath(edges, p) && |p| >= 2 && p[0] == p[|p| - 1]
  }

  ghost predicate HasCycle(edges: seq<Edge>) {
    exists p :: IsCycle(edges, p)
  }

  predicate EdgesInRange(edges: seq<Edge>, n: nat) {
    forall k :: 0 <= k < |edges| ==> edges[k].before < n && edges[k].after < n
  }

  /** Distinct node indices, all of them in range. */
  predicate IsSelection(order: seq<nat>, n: nat) {
    && (forall i :: 0 <= i < |order| ==> order[i] < n)
    && (forall i, j :: 0 <= i < j < |order| ==> order[i] != order[j])
  }

  /** A permutation of the node indices in which every edge points forward. */
  ghost predicate IsSchedule(order: seq<nat>, edges: seq<Edge>, n: nat) {
    && |order| == n
    && IsSelection(order, n)
    && forall i, j :: 0 <= i < n && 0 <= j < n && Edge(order[i], order[j]) in edges ==> i < j
  }

  function Upto(n: nat): (s: set<nat>)
    ensures |s| == n
    ensures forall v: nat :: v in s <==> v < n
  {
    if n == 0 then {} else Upto(n - 1) + {n - 1}
  }

  function Elements(order: seq<nat>): set<nat> {
    set v | v in order
  }

  lemma {:induction false} SelectionSize(order: seq<nat>)
    requires forall i, j :: 0 <= i < j < |order| ==> order[i] != order[j]
    ensures |Elements(order)| == |order|
  {
    if |order| > 0 {
      var m := |order| - 1;
      SelectionSize(order[..m]);
      assert order == order[..m] + [order[m]];
      assert Elements(order) == Elements(order[..m]) + {order[m]};
    }
  }

  /** A selection never has more than `n` entries, and one with `n` entries misses no index. */
  lemma SelectionCovers(order: seq<nat>, n: nat)
    requires IsSelection(order, n)
    ensures |order| <= n
    ensures |order| == n ==> forall v: nat :: v < n ==> v in order
  {
    SelectionSize(order);
    SubsetSize(Elements(order), Upto(n));
    if |order| == n {
      forall v: nat | v < n
        ensures v in order
      {
        assert v in Upto(n);
        assert v in Elements(order);
      }
    }
  }

  // ---- schedules and cycles ----

  lemma PathInRange(edges: seq<Edge>, n: nat, p: seq<nat>, i: nat)
    requires EdgesInRange(edges, n) && IsPath(edges, p) && |p| >= 2 && i < |p|
    ensures p[i] < n
  {
    if i < |p| - 1 {
      assert Edge(p[i], p[i + 1]) in edges;
      var k :| 0 <= k < |edges| && edges[k] == Edge(p[i], p[i + 1]);
    } else {
      assert Edge(p[i - 1], p[i - 1 + 1]) in edges;
      var k :| 0 <= k < |edges| && edges[k] == Edge(p[i - 1], p[i - 1 + 1]);
    }
  }

  /** Along any path, positions in a schedule grow. */
  lemma {:induction false} PathsPointForward(order: seq<nat>, edges: seq<Edge>, n: nat, p: seq<nat>, i: nat, j: nat)
    requires IsSchedule(order, edges, n) && EdgesInRange(edges, n)
    requires IsPath(edges, p) && |p| >= 2
    requires i < n && j < n && order[i] == p[0] && order[j] == p[|p| - 1]
    ensures i < j
    decreases |p|
  {
    if |p| == 2 {
      assert Edge(order[i], order[j]) in edges;
    } else {
      var m := |p| - 1;
      PathInRange(edges, n, p, m - 1);
      SelectionCovers(order, n);
      assert p[m - 1] in order;
      var k :| 0 <= k < n && order[k] == p[m - 1];
      var q := p[..m];
      assert forall t :: 0 <= t < m ==> q[t] == p[t];
      PathsPointForward(order, edges, n, q, i, k);
      assert Edge(p[m - 1], p[m - 1 + 1]) in edges;
      assert Edge(order[k], order[j]) in edges;
    }
  }

  lemma ScheduledIsAcyclic(order: seq<nat>, edges: seq<Edge>, n: nat)
    requires IsSchedule(order, edges, n) && EdgesInRange(edges, n)
    ensures !HasCycle(edges)
  {
    if p :| IsCycle(edges, p) {
      PathInRange(edges, n, p, 0);
      SelectionCovers(order, n);
      assert p[0] in order;
      var i :| 0 <= i < n && order[i] == p[0];
      PathsPointForward(order, edges, n, p, i, i);
    }
  }

  /** Every member of the set has a predecessor in the set. */
  ghost predicate HasNoSource(edges: seq<Edge>, stuck: set<nat>) {
    forall v {:trigger HasPredecessorIn(edges, stuck, v)} ::
      v in stuck ==> HasPredecessorIn(edges, stuck, v)
  }

  ghost predicate HasPredecessorIn(edges: seq<Edge>, stuck: set<nat>, v: nat) {
    exists u :: u in stuck && Edge(u, v) in edges
  }

  lemma PrependToPath(edges: seq<Edge>, u: nat, walk: seq<nat>)
    requires IsPath(edges, walk) && Edge(u, walk[0]) in edges
    ensures IsPath(edges, [u] + walk)
  {
    var longer := [u] + walk;
    forall i | 0 <= i < |longer| - 1
      ensures Edge(longer[i], longer[i + 1]) in edges
    {
      if i > 0 {
        assert longer[i] == walk[i - 1] && longer[i + 1] == walk[i - 1 + 1];
      }
    }
  }

  lemma PathPrefix(edges: seq<Edge>, p: seq<nat>, k: nat)
    requires IsPath(edges, p) && 0 < k <= |p|
    ensures IsPath(edges, p[..k])
  {
    var q := p[..k];
    forall i | 0 <= i < |q| - 1
      ensures Edge(q[i], q[i + 1]) in edges
    {
      assert q[i] == p[i] && q[i + 1] == p[i + 1];
    }
  }

  lemma SelectionFits(order: seq<nat>, s: set<nat>)
    requires forall i :: 0 <= i < |order| ==> order[i] in s
    requires forall i, j :: 0 <= i < j < |order| ==> order[i] != order[j]
    ensures |order| <= |s|
  {
    SelectionSize(order);
    SubsetSize(Elements(order), s);
  }

  /** A path without repetition inside `stuck`. */
  ghost predicate IsWalk(edges: seq<Edge>, stuck: set<nat>, walk: seq<nat>) {
    && IsPath(edges, walk)
    && (forall i :: 0 <= i < |walk| ==> walk[i] in stuck)
    && forall i, j :: 0 <= i < j < |walk| ==> walk[i] != walk[j]
  }

  lemma ExtendWalk(edges: seq<Edge>, stuck: set<nat>, walk: seq<nat>, u: nat)
    requires IsWalk(edges, stuck, walk) && u in stuck && Edge(u, walk[0]) in edges && u !in walk
    ensures IsWalk(edges, stuck, [u] + walk) && |walk| < |stuck|
  {
    PrependToPath(edges, u, walk);
    SelectionFits([u] + walk, stuck);
  }

  lemma CloseWalk(edges: seq<Edge>, stuck: set<nat>, walk: seq<nat>, u: nat) returns (p: seq<nat>)
    requires IsWalk(edges, stuck, walk) && Edge(u, walk[0]) in edges && u in walk
    ensures IsCycle(edges, p) && forall i :: 0 <= i < |p| ==> p[i] in stuck
  {
    var k :| 0 <= k < |walk| && walk[k] == u;
    PrependToPath(edges, u, walk);
    PathPrefix(edges, [u] + walk, k + 2);
    p := ([u] + walk)[..k + 2];
  }

  /** Walking back through a set without sources closes a cycle inside the set. */
  lemma {:induction false} CycleFrom(edges: seq<Edge>, stuck: set<nat>, walk: seq<nat>) returns (p: seq<nat>)
    requires HasNoSource(edges, stuck) && IsWalk(edges, stuck, walk)
    ensures IsCycle(edges, p) && forall i :: 0 <= i < |p| ==> p[i] in stuck
    decreases |stuck| - |walk|
  {
    assert HasPredecessorIn(edges, stuck, walk[0]);
    var u :| u in stuck && Edge(u, walk[0]) in edges;
    if u in walk {
      p := CloseWalk(edges, stuck, walk, u);
    } else {
      ExtendWalk(edges, stuck, walk, u);
      p := CycleFrom(edges, stuck, [u] + walk);
    }
  }

  // ---- longest-path levels ----

  /** Each level exceeds every predecessor's, and a nonzero one exceeds some predecessor's by one. */
  ghost predicate IsLevelling(level: seq<nat>, edges: seq<Edge>, n: nat) {
    && |level| == n
    && EdgesInRange(edges, n)
    && (forall k :: 0 <= k < |edges| ==> level[edges[k].before] < level[edges[k].after])
    && forall v :: 0 <= v < n && level[v] > 0 ==>
         exists u :: 0 <= u < n && Edge(u, v) in edges && level[v] == level[u] + 1
  }

  /** The order never puts a node before one of smaller level. */
  ghost predicate SortedByLevel(order: seq<nat>, level: seq<nat>) {
    && (forall i :: 0 <= i < |order| ==> order[i] < |level|)
    && forall i, j :: 0 <= i < j < |order| ==> level[order[i]] <= level[order[j]]
  }

  /** The order is sorted by longest-path depth, as levels witness. */
  ghost predicate IsDepthSorted(order: seq<nat>, edges: seq<Edge>, n: nat) {
    exists level :: IsLevelling(level, edges, n) && SortedByLevel(order, level)
  }

  /** No path to `v` is longer than the level of `v`. */
  lemma {:induction false} LevelBoundsPaths(level: seq<nat>, edges: seq<Edge>, n: nat, p: seq<nat>)
    requires IsLevelling(level, edges, n) && IsPath(edges, p) && p[|p| - 1] < n
    ensures |p| - 1 <= level[p[|p| - 1]]
    decreases |p|
  {
    if |p| > 1 {
      var m := |p| - 1;
      PathInRange(edges, n, p, m - 1);
      LevelBoundsPaths(level, edges, n, p[..m]);
      assert Edge(p[m - 1], p[m - 1 + 1]) in edges;
      var k :| 0 <= k < |edges| && edges[k] == Edge(p[m - 1], p[m]);
    }
  }

  lemma SingletonPath(edges: seq<Edge>, v: nat)
    ensures IsPath(edges, [v])
  {
  }

  lemma AppendToPath(edges: seq<Edge>, q: seq<nat>, v: nat)
    requires IsPath(edges, q) && Edge(q[|q| - 1], v) in edges
    ensures IsPath(edges, q + [v])
  {
    var p := q + [v];
    forall i | 0 <= i < |p| - 1
      ensures Edge(p[i], p[i + 1]) in edges
    {
      if i < |q| - 1 {
        assert p[i] == q[i] && p[i + 1] == q[i + 1];
      }
    }
  }

  /** Some path to `v` is as long as its level: a level is the length of the longest path. */
  lemma {:induction false} LevelIsReached(level: seq<nat>, edges: seq<Edge>, n: nat, v: nat) returns (p: seq<nat>)
    requires IsLevelling(level, edges, n) && v < n
    ensures IsPath(edges, p) && p[|p| - 1] == v && |p| - 1 == level[v]
    decreases level[v]
  {
    hide IsPath;
    if level[v] == 0 {
      SingletonPath(edges, v);
      p := [v];
    } else {
      var u :| 0 <= u < n && Edge(u, v) in edges && level[v] == level[u] + 1;
      var q := LevelIsReached(level, edges, n, u);
      AppendToPath(edges, q, v);
      p := q + [v];
    }
  }

  /**
   What being sorted means: whatever path leads to an earlier entry, one at least as long leads to
   every later entry.
   */
  lemma SortedByDepth(order: seq<nat>, edges: seq<Edge>, n: nat, i: nat, j: nat, p: seq<nat>)
    returns (q: seq<nat>)
    requires IsDepthSorted(order, edges, n)
    requires i < j < |order| && IsPath(edges, p) && p[|p| - 1] == order[i]
    ensures IsPath(edges, q) && q[|q| - 1] == order[j] && |p| <= |q|
  {
    hide IsLevelling, IsPath;
    var level :| IsLevelling(level, edges, n) && SortedByLevel(order, level);
    LevelledSize(level, edges, n);
    LevelBoundsPaths(level, edges, n, p);
    q := LevelIsReached(level, edges, n, order[j]);
  }

  lemma LevelledSize(level: seq<nat>, edges: seq<Edge>, n: nat)
    requires IsLevelling(level, edges, n)
    ensures |level| == n
  {
  }
}
