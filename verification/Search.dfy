// Breadth-first search over an arbitrary graph: what the two searches of
// internal/gamecore/map/layout.go keep true of their queue, visited and parent tables.

module Search {

  type Graph = (nat, nat) -> bool

  // Consecutive nodes are joined by an edge.
  ghost predicate IsWalk(edge: Graph, walk: seq<nat>) {
    walk != [] && forall i :: 0 <= i < |walk| - 1 ==> edge(walk[i], walk[i + 1])
  }

  ghost predicate Joins<T>(walk: seq<T>, start: T, goal: T) {
    walk != [] && walk[0] == start && walk[|walk| - 1] == goal
  }

  // The parent table is a tree rooted at the start; dist is a node's depth in it.
  ghost predicate Tree(edge: Graph, start: nat, dist: map<nat, nat>, parent: map<nat, nat>) {
    && start in dist && dist[start] == 0
    && parent.Keys == dist.Keys - {start}
    && forall v :: v in parent ==> parent[v] in dist && edge(parent[v], v) && dist[v] == dist[parent[v]] + 1
  }

  // The queue holds visited nodes of two adjacent depths, the shallower ones first; nothing
  // visited is deeper.
  ghost predicate Layered(dist: map<nat, nat>, queue: seq<nat>, depth: nat) {
    && (forall i :: 0 <= i < |queue| ==> queue[i] in dist && depth <= dist[queue[i]] <= depth + 1)
    && (forall v :: v in dist ==> dist[v] <= depth + 1)
    && (forall i, j :: 0 <= i < j < |queue| ==> dist[queue[i]] <= dist[queue[j]])
  }

  // Every visited node outside `open` has had all its neighbours visited, one level down at most.
  ghost predicate Explored(edge: Graph, dist: map<nat, nat>, open: seq<nat>) {
    forall u, v :: u in dist && u !in open && edge(u, v) ==> v in dist && dist[v] <= dist[u] + 1
  }

  lemma Popped(dist: map<nat, nat>, queue: seq<nat>, depth: nat)
    requires Layered(dist, queue, depth) && queue != []
    ensures queue[0] in dist && Layered(dist, queue[1..], dist[queue[0]])
  {
  }

  lemma Discovered(edge: Graph, start: nat, dist: map<nat, nat>, parent: map<nat, nat>, queue: seq<nat>,
      current: nat, next: nat)
    requires Tree(edge, start, dist, parent) && current in dist && next !in dist && edge(current, next)
    requires Layered(dist, queue, dist[current]) && Explored(edge, dist, queue + [current])
    ensures Tree(edge, start, dist[next := dist[current] + 1], parent[next := current])
    ensures Layered(dist[next := dist[current] + 1], queue + [next], dist[current])
    ensures Explored(edge, dist[next := dist[current] + 1], queue + [next] + [current])
  {
    var dist' := dist[next := dist[current] + 1];
    assert next != start;
    forall u, v | u in dist' && u !in queue + [next] + [current] && edge(u, v)
      ensures v in dist' && dist'[v] <= dist'[u] + 1
    {
      assert next in queue + [next] + [current];
      assert u in dist && u !in queue + [current];
    }
  }

  // With nothing left to explore, a walk from the start never leaves the visited nodes.
  lemma {:induction false} WalkStays(edge: Graph, dist: map<nat, nat>, walk: seq<nat>, i: nat)
    requires Explored(edge, dist, []) && IsWalk(edge, walk) && walk[0] in dist && i < |walk|
    ensures walk[i] in dist
  {
    if i > 0 {
      WalkStays(edge, dist, walk, i - 1);
      assert edge(walk[i - 1], walk[i - 1 + 1]);
    }
  }

  // A walk reaches only visited nodes, no deeper than its length, while everything shallower
  // than the node being expanded has been explored.
  lemma {:induction false} WalkShallow(edge: Graph, dist: map<nat, nat>, open: seq<nat>, depth: nat, walk: seq<nat>,
      i: nat)
    requires Explored(edge, dist, open) && IsWalk(edge, walk) && walk[0] in dist && dist[walk[0]] == 0
    requires forall u :: u in open && u in dist ==> dist[u] >= depth
    requires i < |walk| && i <= depth
    ensures walk[i] in dist && dist[walk[i]] <= i
  {
    if i > 0 {
      WalkShallow(edge, dist, open, depth, walk, i - 1);
      assert edge(walk[i - 1], walk[i - 1 + 1]);
    }
  }

  // The first time the goal is seen, from a node at some depth, no walk to it is shorter.
  lemma FoundShortest(edge: Graph, start: nat, dist: map<nat, nat>, queue: seq<nat>, current: nat, goal: nat,
      walk: seq<nat>)
    requires current in dist && goal !in dist && start in dist && dist[start] == 0
    requires Layered(dist, queue, dist[current]) && Explored(edge, dist, queue + [current])
    requires IsWalk(edge, walk) && Joins(walk, start, goal)
    ensures |walk| >= dist[current] + 2
  {
    if |walk| - 1 <= dist[current] {
      WalkShallow(edge, dist, queue + [current], dist[current], walk, |walk| - 1);
    }
  }

  // No walk from start to goal has fewer than `length` edges.
  ghost predicate AtLeast(edge: Graph, start: nat, goal: nat, length: int) {
    forall walk :: IsWalk(edge, walk) && Joins(walk, start, goal) ==> |walk| >= length + 1
  }

  ghost predicate Connected(edge: Graph, start: nat, goal: nat) {
    exists walk :: IsWalk(edge, walk) && Joins(walk, start, goal)
  }

  // A walk from start to goal than which there is none shorter.
  ghost predicate Shortest(edge: Graph, path: seq<nat>, start: nat, goal: nat) {
    IsWalk(edge, path) && Joins(path, start, goal) && AtLeast(edge, start, goal, |path| - 1)
  }

  lemma StayingPut(edge: Graph, start: nat)
    ensures Connected(edge, start, start) && Shortest(edge, [start], start, start)
  {
    assert IsWalk(edge, [start]) && Joins([start], start, start);
  }

  // The loop invariant of a search that has not met its goal; `open` is the node being
  // expanded, if any.
  ghost predicate Searching(edge: Graph, start: nat, goal: nat, dist: map<nat, nat>, parent: map<nat, nat>,
                            queue: seq<nat>, depth: nat, open: seq<nat>) {
    && goal !in dist && Tree(edge, start, dist, parent)
    && Layered(dist, queue, depth) && Explored(edge, dist, queue + open)
  }

  ghost predicate Found(edge: Graph, start: nat, goal: nat, dist: map<nat, nat>, parent: map<nat, nat>) {
    goal in dist && Tree(edge, start, dist, parent) && AtLeast(edge, start, goal, dist[goal])
  }

  lemma Begin(edge: Graph, start: nat, goal: nat)
    requires start != goal
    ensures Searching(edge, start, goal, map[start := 0], map[], [start], 0, [])
  {
  }

  lemma Take(edge: Graph, start: nat, goal: nat, dist: map<nat, nat>, parent: map<nat, nat>, queue: seq<nat>,
      depth: nat)
    requires Searching(edge, start, goal, dist, parent, queue, depth, []) && queue != []
    ensures queue[0] in dist
    ensures Searching(edge, start, goal, dist, parent, queue[1..], dist[queue[0]], [queue[0]])
  {
    Popped(dist, queue, depth);
    hide Tree, Layered;
    forall u | u in queue + [] ensures u in queue[1..] + [queue[0]] {
      assert u in [queue[0]] + queue[1..];
    }
  }

  // A neighbour met for the first time.
  lemma Meet(edge: Graph, start: nat, goal: nat, dist: map<nat, nat>, parent: map<nat, nat>, queue: seq<nat>,
      current: nat, next: nat)
    requires current in dist && Searching(edge, start, goal, dist, parent, queue, dist[current], [current])
    requires next !in dist && edge(current, next)
    ensures next == goal ==> Found(edge, start, goal, dist[next := dist[current] + 1], parent[next := current])
    ensures next != goal ==>
      Searching(edge, start, goal, dist[next := dist[current] + 1], parent[next := current],
          queue + [next], dist[current], [current])
  {
    Discovered(edge, start, dist, parent, queue, current, next);
    hide Layered, Explored;
    if next == goal {
      forall walk | IsWalk(edge, walk) && Joins(walk, start, goal) ensures |walk| >= dist[current] + 2 {
        FoundShortest(edge, start, dist, queue, current, goal, walk);
      }
    }
  }

  // Everything visited so far is at most one level below the node being expanded.
  lemma SeenShallow(edge: Graph, start: nat, goal: nat, dist: map<nat, nat>, parent: map<nat, nat>, queue: seq<nat>,
      current: nat, seen: nat)
    requires current in dist && Searching(edge, start, goal, dist, parent, queue, dist[current], [current])
    requires seen in dist
    ensures dist[seen] <= dist[current] + 1
  {
  }

  lemma {:induction false} CardinalityWithin(a: set<nat>, b: set<nat>)
    requires a <= b
    ensures |a| <= |b|
  {
    if a != {} {
      var x :| x in a;
      CardinalityWithin(a - {x}, b - {x});
    }
  }

  // All neighbours of the current node are visited: it is explored.
  lemma Leave(edge: Graph, start: nat, goal: nat, dist: map<nat, nat>, parent: map<nat, nat>, queue: seq<nat>,
      current: nat)
    requires current in dist && Searching(edge, start, goal, dist, parent, queue, dist[current], [current])
    requires forall v :: edge(current, v) ==> v in dist && dist[v] <= dist[current] + 1
    ensures Searching(edge, start, goal, dist, parent, queue, dist[current], [])
  {
    hide Tree, Layered;
    forall u | u in queue + [current] && u !in queue + [] ensures u == current {
    }
  }

  lemma Exhausted(edge: Graph, start: nat, goal: nat, dist: map<nat, nat>, parent: map<nat, nat>, depth: nat)
    requires Searching(edge, start, goal, dist, parent, [], depth, [])
    ensures !Connected(edge, start, goal)
  {
    forall walk | IsWalk(edge, walk) && Joins(walk, start, goal) ensures false {
      assert Explored(edge, dist, []);
      WalkStays(edge, dist, walk, |walk| - 1);
    }
  }

  // Following parents from the goal lists a shortest walk backwards.
  method Backtrack(parent: map<nat, nat>, start: nat, goal: nat, ghost edge: Graph, ghost dist: map<nat, nat>)
    returns (path: seq<nat>)
    requires Found(edge, start, goal, dist, parent)
    ensures Connected(edge, start, goal) && Shortest(edge, path, start, goal)
  {
    hide AtLeast;
    path := [goal];
    var current := goal;
    while current != start
      invariant current in dist && path != [] && path[0] == goal && path[|path| - 1] == current
      invariant |path| + dist[current] == dist[goal] + 1
      invariant forall i :: 0 <= i < |path| - 1 ==> edge(path[i + 1], path[i])
      decreases dist[current]
    {
      current := parent[current];
      path := path + [current];
    }
    var backwards := path;
    path := Reverse(path);
    forall i | 0 <= i < |path| - 1 ensures edge(path[i], path[i + 1]) {
      assert edge(backwards[|path| - 2 - i + 1], backwards[|path| - 2 - i]);
    }
    assert IsWalk(edge, path) && Joins(path, start, goal);
  }

  method Reverse<T>(path: seq<T>) returns (reversed: seq<T>)
    ensures |reversed| == |path|
    ensures forall k :: 0 <= k < |path| ==> reversed[k] == path[|path| - 1 - k]
  {
    reversed := path;
    var i, j := 0, |path| - 1;
    while i < j
      invariant 0 <= i && i + j == |path| - 1 && |reversed| == |path|
      invariant forall k :: 0 <= k < |path| && (k < i || k > j) ==> reversed[k] == path[|path| - 1 - k]
      invariant forall k :: i <= k <= j ==> reversed[k] == path[k]
      decreases j - i
    {
      reversed := reversed[i := reversed[j]][j := reversed[i]];
      i, j := i + 1, j - 1;
    }
  }
}
