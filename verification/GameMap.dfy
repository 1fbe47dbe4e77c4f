// Path finding over the prison map (internal/gamecore/map/layout.go).

module GameMap {
  import opened Arithmetic
  import opened Records
  import opened Search

  type RoomId = nat

  datatype TileKind = Wall | Floor | Door
  datatype Tile = Tile(kind: TileKind, room: RoomId) {
    predicate Walkable() { kind == Floor || kind == Door }
  }
  datatype Point = Point(x: int, y: int)

  datatype Layout = Layout(width: nat, height: nat, tiles: seq<Tile>,
                           rooms: set<RoomId>, roomGraph: map<RoomId, seq<RoomId>>) {
    predicate InBounds(p: Point) { 0 <= p.x < width && 0 <= p.y < height }

    ghost predicate Valid() { |tiles| == width * height }

    function IndexOf(p: Point): (r: Option<nat>)
      requires Valid()
      ensures r.Some? <==> InBounds(p)
      ensures r.Some? ==> r.value < |tiles| && PointFor(r.value) == p
    {
      if !InBounds(p) then None
      else
        IndexWithin(width, height, p.x, p.y);
        Some(p.y * width + p.x)
    }

    function PointFor(index: nat): Point
      requires Valid() && index < |tiles|
    {
      Point(index % width, index / width)
    }

    predicate IsWalkable(p: Point)
      requires Valid()
    {
      IndexOf(p).Some? && tiles[IndexOf(p).value].Walkable()
    }
  }

  lemma IndexWithin(width: nat, height: nat, x: nat, y: nat)
    requires x < width && y < height
    ensures y * width + x < width * height
    ensures (y * width + x) % width == x && (y * width + x) / width == y
  {
    ProductOrdered(y, height, width);
    QuotientUnique(y * width + x, width, y, x);
  }

  // Indexing a tile's coordinates gives the tile back.
  lemma IndexRoundTrip(l: Layout, index: nat)
    requires l.Valid() && index < |l.tiles|
    ensures l.IndexOf(l.PointFor(index)) == Some(index)
  {
    QuotientWithin(index, l.width, l.height);
  }

  // ---- rooms ----

  function Neighbors(l: Layout, room: RoomId): seq<RoomId> {
    if room in l.roomGraph then l.roomGraph[room] else []
  }

  ghost function RoomEdges(l: Layout): Graph { (a: nat, b: nat) => b in Neighbors(l, a) }

  ghost function KnownRooms(l: Layout): set<RoomId> {
    set a, i | a in l.roomGraph && 0 <= i < |l.roomGraph[a]| :: l.roomGraph[a][i]
  }

  // Visits the neighbours of the room taken from the queue, stopping at the target.
  method VisitNeighbors(l: Layout, ghost fromRoom: RoomId, toRoom: RoomId, current: RoomId, waiting: seq<RoomId>,
                        seen: set<RoomId>, tree: map<RoomId, RoomId>, ghost dist0: map<nat, nat>)
    returns (found: bool, queue: seq<RoomId>, visited: set<RoomId>,
        parent: map<RoomId, RoomId>, ghost dist: map<nat, nat>)
    requires seen == dist0.Keys && current in dist0 && seen <= KnownRooms(l) + {fromRoom}
    requires Searching(RoomEdges(l), fromRoom, toRoom, dist0, tree, waiting, dist0[current], [current])
    ensures visited == dist.Keys && visited <= KnownRooms(l) + {fromRoom}
    ensures found ==> Found(RoomEdges(l), fromRoom, toRoom, dist, parent)
    ensures !found ==> Searching(RoomEdges(l), fromRoom, toRoom, dist, parent, queue, dist0[current], [])
    ensures |queue| - 2 * |visited| <= |waiting| - 2 * |seen|
  {
    hide Searching, Found;
    ghost var edge := RoomEdges(l);
    queue, visited, parent, dist := waiting, seen, tree, dist0;
    var neighbors := Neighbors(l, current);
    for j := 0 to |neighbors|
      invariant visited == dist.Keys && visited <= KnownRooms(l) + {fromRoom}
      invariant current in dist && dist[current] == dist0[current]
      invariant Searching(edge, fromRoom, toRoom, dist, parent, queue, dist0[current], [current])
      invariant forall i :: 0 <= i < j ==> neighbors[i] in dist && dist[neighbors[i]] <= dist[current] + 1
      invariant |queue| - 2 * |visited| <= |waiting| - 2 * |seen|
    {
      var neighbor := neighbors[j];
      if neighbor in visited {
        SeenShallow(edge, fromRoom, toRoom, dist, parent, queue, current, neighbor);
        continue;
      }
      visited := visited + {neighbor};
      Meet(edge, fromRoom, toRoom, dist, parent, queue, current, neighbor);
      parent := parent[neighbor := current];
      dist := dist[neighbor := dist[current] + 1];
      if neighbor == toRoom { return true, [], visited, parent, dist; }
      queue := queue + [neighbor];
    }
    found := false;
    Leave(edge, fromRoom, toRoom, dist, parent, queue, current);
  }

  method FindRoomPath(l: Layout, fromRoom: RoomId, toRoom: RoomId) returns (path: Option<seq<RoomId>>)
    ensures path.Some? <==> fromRoom in l.rooms && toRoom in l.rooms && Connected(RoomEdges(l), fromRoom, toRoom)
    ensures path.Some? ==> Shortest(RoomEdges(l), path.value, fromRoom, toRoom)
  {
    hide Searching, Found, Connected, Shortest;
    if fromRoom !in l.rooms || toRoom !in l.rooms { return None; }
    if fromRoom == toRoom {
      StayingPut(RoomEdges(l), fromRoom);
      return Some([fromRoom]);
    }
    ghost var edge := RoomEdges(l);
    var parent: map<RoomId, RoomId> := map[];
    var visited := {fromRoom};
    var queue := [fromRoom];
    var found := false;
    ghost var dist: map<nat, nat>, depth := map[fromRoom := 0], 0;
    Begin(edge, fromRoom, toRoom);
    while queue != []
      invariant visited == dist.Keys && visited <= KnownRooms(l) + {fromRoom}
      invariant !found ==> Searching(edge, fromRoom, toRoom, dist, parent, queue, depth, [])
      invariant found ==> Found(edge, fromRoom, toRoom, dist, parent) && queue == []
      decreases 2 * |KnownRooms(l) + {fromRoom}| + |queue| - 2 * |visited|
    {
      var current := queue[0];
      Take(edge, fromRoom, toRoom, dist, parent, queue, depth);
      depth := dist[current];
      found, queue, visited, parent, dist :=
        VisitNeighbors(l, fromRoom, toRoom, current, queue[1..], visited, parent, dist);
      if found { queue := []; }
      CardinalityWithin(visited, KnownRooms(l) + {fromRoom});
    }
    if !found {
      Exhausted(edge, fromRoom, toRoom, dist, parent, depth);
      return None;
    }
    var nodes := Backtrack(parent, fromRoom, toRoom, edge, dist);
    return Some(nodes);
  }

  // ---- tiles ----

  const DIRECTIONS := [Point(0, -1), Point(-1, 0), Point(1, 0), Point(0, 1)]

  predicate Adjacent(a: Point, b: Point) {
    || (a.x == b.x && (a.y == b.y + 1 || b.y == a.y + 1))
    || (a.y == b.y && (a.x == b.x + 1 || b.x == a.x + 1))
  }

  function Toward(p: Point, d: nat): Point
    requires d < |DIRECTIONS|
  {
    Point(p.x + DIRECTIONS[d].x, p.y + DIRECTIONS[d].y)
  }

  lemma DirectionsCover(a: Point, b: Point)
    ensures Adjacent(a, b) <==> exists d :: 0 <= d < |DIRECTIONS| && Toward(a, d) == b
  {
    assert Toward(a, 0) == Point(a.x, a.y - 1) && Toward(a, 1) == Point(a.x - 1, a.y);
    assert Toward(a, 2) == Point(a.x + 1, a.y) && Toward(a, 3) == Point(a.x, a.y + 1);
  }

  // A walk over walkable tiles, each adjacent to the one before.
  ghost predicate TileWalk(l: Layout, walk: seq<Point>)
    requires l.Valid()
  {
    && walk != []
    && (forall i :: 0 <= i < |walk| ==> l.IsWalkable(walk[i]))
    && (forall i :: 0 <= i < |walk| - 1 ==> Adjacent(walk[i], walk[i + 1]))
  }

  ghost function TileEdges(l: Layout): Graph
    requires l.Valid()
  {
    (a: nat, b: nat) =>
      a < |l.tiles| && b < |l.tiles| && l.tiles[b].Walkable() && Adjacent(l.PointFor(a), l.PointFor(b))
  }

  method VisitAround(l: Layout, ghost start: nat, end: nat, current: nat, waiting: seq<nat>,
                     seen: set<nat>, tree: map<nat, nat>, ghost dist0: map<nat, nat>)
    returns (found: bool, queue: seq<nat>, visited: set<nat>, parent: map<nat, nat>, ghost dist: map<nat, nat>)
    requires l.Valid() && current < |l.tiles|
    requires seen == dist0.Keys && current in dist0 && (forall v :: v in seen ==> v < |l.tiles|)
    requires Searching(TileEdges(l), start, end, dist0, tree, waiting, dist0[current], [current])
    ensures visited == dist.Keys && (forall v :: v in visited ==> v < |l.tiles|)
    ensures found ==> Found(TileEdges(l), start, end, dist, parent)
    ensures !found ==> Searching(TileEdges(l), start, end, dist, parent, queue, dist0[current], [])
    ensures |queue| - 2 * |visited| <= |waiting| - 2 * |seen|
  {
    hide Searching, Found, Adjacent, Toward;
    ghost var edge := TileEdges(l);
    queue, visited, parent, dist := waiting, seen, tree, dist0;
    var currentPoint := l.PointFor(current);
    for d := 0 to |DIRECTIONS|
      invariant visited == dist.Keys && (forall v :: v in visited ==> v < |l.tiles|)
      invariant current in dist && dist[current] == dist0[current]
      invariant Searching(edge, start, end, dist, parent, queue, dist0[current], [current])
      invariant forall i :: 0 <= i < d && l.IsWalkable(Toward(currentPoint, i)) ==>
        Near(dist, l.IndexOf(Toward(currentPoint, i)).value, dist0[current])
      invariant |queue| - 2 * |visited| <= |waiting| - 2 * |seen|
    {
      var nextPoint := Toward(currentPoint, d);
      var nextIndex := l.IndexOf(nextPoint);
      if nextIndex.None? { continue; }
      var next := nextIndex.value;
      if !l.tiles[next].Walkable() { continue; }
      if next in visited {
        SeenShallow(edge, start, end, dist, parent, queue, current, next);
        continue;
      }
      visited := visited + {next};
      DirectionsCover(currentPoint, nextPoint);
      Meet(edge, start, end, dist, parent, queue, current, next);
      parent := parent[next := current];
      dist := dist[next := dist[current] + 1];
      if next == end { return true, [], visited, parent, dist; }
      queue := queue + [next];
    }
    found := false;
    forall v | edge(current, v) ensures Near(dist, v, dist[current]) {
      DirectionsCover(currentPoint, l.PointFor(v));
      IndexRoundTrip(l, v);
    }
    Leave(edge, start, end, dist, parent, queue, current);
  }

  predicate Near(dist: map<nat, nat>, v: nat, depth: nat) { v in dist && dist[v] <= depth + 1 }

  ghost function Below(n: nat): (r: set<nat>)
    ensures forall v: nat :: v in r <==> v < n
  {
    if n == 0 then {} else Below(n - 1) + {n - 1}
  }

  method SearchTiles(l: Layout, start: nat, end: nat)
    returns (found: bool, parent: map<nat, nat>, ghost dist: map<nat, nat>)
    requires l.Valid() && start < |l.tiles| && start != end
    ensures found ==> Found(TileEdges(l), start, end, dist, parent) && forall v :: v in dist ==> v < |l.tiles|
    ensures !found ==> !Connected(TileEdges(l), start, end)
  {
    hide Searching, Found, Connected;
    ghost var edge := TileEdges(l);
    ghost var depth, universe := 0, Below(|l.tiles|);
    var queue, visited := [start], {start};
    found, parent, dist := false, map[], map[start := 0];
    Begin(edge, start, end);
    while queue != []
      invariant visited == dist.Keys && (forall v :: v in visited ==> v < |l.tiles|)
      invariant !found ==> Searching(edge, start, end, dist, parent, queue, depth, [])
      invariant found ==> Found(edge, start, end, dist, parent) && queue == []
      decreases 2 * |universe| + |queue| - 2 * |visited|
    {
      var current := queue[0];
      Take(edge, start, end, dist, parent, queue, depth);
      depth := dist[current];
      found, queue, visited, parent, dist := VisitAround(l, start, end, current, queue[1..], visited, parent, dist);
      if found { queue := []; }
      CardinalityWithin(visited, universe);
    }
    if !found { Exhausted(edge, start, end, dist, parent, depth); }
  }

  function PointsOf(l: Layout, nodes: seq<nat>): (points: seq<Point>)
    requires l.Valid() && forall i :: 0 <= i < |nodes| ==> nodes[i] < |l.tiles|
    ensures |points| == |nodes| && forall i :: 0 <= i < |nodes| ==> points[i] == l.PointFor(nodes[i])
  {
    seq(|nodes|, i requires 0 <= i < |nodes| => l.PointFor(nodes[i]))
  }

  // A walk over tile numbers is a walk over their coordinates.
  lemma {:induction false} WalkOnTiles(l: Layout, nodes: seq<nat>, i: nat)
    requires l.Valid() && IsWalk(TileEdges(l), nodes) && i < |nodes|
    requires nodes[0] < |l.tiles| && l.tiles[nodes[0]].Walkable()
    ensures nodes[i] < |l.tiles| && l.tiles[nodes[i]].Walkable()
  {
    if i > 0 {
      WalkOnTiles(l, nodes, i - 1);
      assert TileEdges(l)(nodes[i - 1], nodes[i - 1 + 1]);
    }
  }

  lemma WalkOverPoints(l: Layout, nodes: seq<nat>)
    requires l.Valid() && IsWalk(TileEdges(l), nodes) && nodes[0] < |l.tiles| && l.tiles[nodes[0]].Walkable()
    ensures forall i :: 0 <= i < |nodes| ==> nodes[i] < |l.tiles|
    ensures TileWalk(l, PointsOf(l, nodes))
  {
    forall i | 0 <= i < |nodes|
      ensures nodes[i] < |l.tiles| && l.IndexOf(l.PointFor(nodes[i])) == Some(nodes[i]) && l.tiles[nodes[i]].Walkable()
    {
      WalkOnTiles(l, nodes, i);
      IndexRoundTrip(l, nodes[i]);
    }
    hide Adjacent;
    forall i | 0 <= i < |nodes| - 1 ensures Adjacent(PointsOf(l, nodes)[i], PointsOf(l, nodes)[i + 1]) {
      assert TileEdges(l)(nodes[i], nodes[i + 1]);
    }
  }

  ghost function NodesOf(l: Layout, walk: seq<Point>): (nodes: seq<nat>)
    requires l.Valid() && TileWalk(l, walk)
    ensures |nodes| == |walk| && forall i :: 0 <= i < |nodes| ==> l.IndexOf(walk[i]) == Some(nodes[i])
  {
    seq(|walk|, i requires 0 <= i < |walk| => l.IndexOf(walk[i]).value)
  }

  // And a walk over coordinates is one over tile numbers.
  lemma WalkOverNodes(l: Layout, walk: seq<Point>, start: nat, end: nat)
    requires l.Valid() && TileWalk(l, walk)
        && l.IndexOf(walk[0]) == Some(start) && l.IndexOf(walk[|walk| - 1]) == Some(end)
    ensures IsWalk(TileEdges(l), NodesOf(l, walk)) && Joins(NodesOf(l, walk), start, end)
  {
    hide Adjacent;
    var nodes := NodesOf(l, walk);
    forall i | 0 <= i < |nodes| - 1 ensures TileEdges(l)(nodes[i], nodes[i + 1]) {
      assert l.PointFor(nodes[i]) == walk[i] && l.PointFor(nodes[i + 1]) == walk[i + 1];
      assert l.IsWalkable(walk[i + 1]);
    }
  }

  ghost predicate TileReachable(l: Layout, start: Point, end: Point)
    requires l.Valid()
  {
    exists walk :: TileWalk(l, walk) && Joins(walk, start, end)
  }

  ghost predicate ShortestTileWalk(l: Layout, path: seq<Point>, start: Point, end: Point)
    requires l.Valid()
  {
    && TileWalk(l, path) && Joins(path, start, end)
    && forall walk :: TileWalk(l, walk) && Joins(walk, start, end) ==> |path| <= |walk|
  }

  lemma TilesUnreached(l: Layout, start: Point, end: Point, startIndex: nat, endIndex: nat)
    requires l.Valid() && l.IndexOf(start) == Some(startIndex) && l.IndexOf(end) == Some(endIndex)
    requires !Connected(TileEdges(l), startIndex, endIndex)
    ensures !TileReachable(l, start, end)
  {
    forall walk | TileWalk(l, walk) && Joins(walk, start, end) ensures false {
      WalkOverNodes(l, walk, startIndex, endIndex);
    }
  }

  lemma TilesReached(l: Layout, start: Point, end: Point, nodes: seq<nat>, startIndex: nat, endIndex: nat)
    requires l.Valid() && l.IndexOf(start) == Some(startIndex) && l.IndexOf(end) == Some(endIndex)
    requires l.tiles[startIndex].Walkable() && Shortest(TileEdges(l), nodes, startIndex, endIndex)
    ensures forall i :: 0 <= i < |nodes| ==> nodes[i] < |l.tiles|
    ensures TileReachable(l, start, end) && ShortestTileWalk(l, PointsOf(l, nodes), start, end)
  {
    hide TileWalk, IsWalk;
    WalkOverPoints(l, nodes);
    forall walk | TileWalk(l, walk) && Joins(walk, start, end) ensures |nodes| <= |walk| {
      WalkOverNodes(l, walk, startIndex, endIndex);
    }
    assert Joins(PointsOf(l, nodes), start, end);
  }

  // No path exactly when the end cannot be reached over walkable tiles; otherwise a shortest one.
  method FindPath(l: Layout, start: Point, end: Point) returns (path: Option<seq<Point>>)
    requires l.Valid()
    ensures path.Some? <==> TileReachable(l, start, end)
    ensures path.Some? ==> ShortestTileWalk(l, path.value, start, end)
  {
    hide Found, Connected, Shortest;
    var startIndex := l.IndexOf(start);
    if startIndex.None? || !l.tiles[startIndex.value].Walkable() { return None; }
    var endIndex := l.IndexOf(end);
    if endIndex.None? || !l.tiles[endIndex.value].Walkable() { return None; }
    if startIndex == endIndex {
      StayingPut(TileEdges(l), startIndex.value);
      TilesReached(l, start, end, [startIndex.value], startIndex.value, endIndex.value);
      return Some([start]);
    }
    var found, parent, dist := SearchTiles(l, startIndex.value, endIndex.value);
    if !found {
      TilesUnreached(l, start, end, startIndex.value, endIndex.value);
      return None;
    }
    var nodes := Backtrack(parent, startIndex.value, endIndex.value, TileEdges(l), dist);
    TilesReached(l, start, end, nodes, startIndex.value, endIndex.value);
    return Some(PointsOf(l, nodes));
  }
}
