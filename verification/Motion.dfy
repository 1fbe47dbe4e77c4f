// Movement with one player to a tile (internal/engine/physics/motion.go). Coordinates are reals;
// rounding to a tile is the source's floor of x + 0.5. Whether a player may enter a room, and the
// scaling of a vector to a maximum length, are parameters.

module Motion {
  import opened Records
  import opened State
  import opened GameMap

  type DoorId = nat

  datatype DoorLink = DoorLink(id: DoorId, roomA: RoomId, roomB: RoomId)

  // What movement looks at: the tiles, the doors standing on them, which doors are open.
  datatype Terrain = Terrain(
    layout: Layout, doorAt: map<Point, DoorLink>, doors: seq<DoorState>,
    mayEnter: (PlayerState, RoomId) -> bool)

  datatype MotionResult = MotionResult(
    position: Vector2, velocity: Vector2, moved: bool, byStun: bool, byMap: bool,
    byDoor: DoorId, byPlayer: PlayerId, stunnedUntil: nat)

  datatype Block = Clear | ByMap | ByDoor(door: DoorId) | ByPlayer(player: PlayerId)

  type Occupied = map<Point, PlayerId>

  function Rounded(x: real): int { (x + 0.5).Floor }

  function TileOf(position: Vector2): Point { Point(Rounded(position.x), Rounded(position.y)) }

  function RoomAt(l: Layout, p: Point): RoomId
    requires l.Valid()
  {
    if l.IndexOf(p).Some? then l.tiles[l.IndexOf(p).value].room else 0
  }

  // The first door of that id decides; an unknown door stands open.
  function IsDoorOpen(doors: seq<DoorState>, id: DoorId): bool {
    if doors == [] then true
    else if doors[0].id == id then doors[0].body.open
    else IsDoorOpen(doors[1..], id)
  }

  predicate Connects(link: DoorLink, a: RoomId, b: RoomId) {
    (link.roomA == a && link.roomB == b) || (link.roomA == b && link.roomB == a)
  }

  // The door between two rooms standing on either tile, if there is one.
  function Doorway(t: Terrain, start: Point, end: Point, a: RoomId, b: RoomId): Option<DoorId> {
    if start in t.doorAt && Connects(t.doorAt[start], a, b) then Some(t.doorAt[start].id)
    else if end in t.doorAt && Connects(t.doorAt[end], a, b) then Some(t.doorAt[end].id)
    else None
  }

  // What stops a player from occupying a position, if anything does.
  function Obstacle(t: Terrain, occupied: Occupied, player: PlayerState, current: Vector2, room: RoomId,
      position: Vector2): Block
    requires t.layout.Valid()
  {
    var tile := TileOf(position);
    if !t.layout.IsWalkable(tile) then ByMap
    else
      var target := RoomAt(t.layout, tile);
      var crossing := target != 0 && room != 0 && target != room;
      var doorway := Doorway(t, TileOf(current), tile, room, target);
      if crossing && doorway.Some? && !IsDoorOpen(t.doors, doorway.value) then ByDoor(doorway.value)
      else if crossing && !t.mayEnter(player, target) then ByMap
      else if tile in t.doorAt && !IsDoorOpen(t.doors, t.doorAt[tile].id) then ByDoor(t.doorAt[tile].id)
      else if tile in occupied && occupied[tile] != 0 && occupied[tile] != player.id then ByPlayer(occupied[tile])
      else Clear
  }

  function Noted(r: MotionResult, b: Block): MotionResult {
    match b
    case Clear => r
    case ByMap => r.(byMap := true)
    case ByDoor(door) => r.(byDoor := door)
    case ByPlayer(player) => r.(byPlayer := player)
  }

  // The motion so far: where the player stands, in which room, what was applied and what was hit.
  datatype Progress = Progress(current: Vector2, room: RoomId, applied: Vector2, result: MotionResult)

  function Along(t: Terrain, occupied: Occupied, player: PlayerState, p: Progress, step: Vector2): Progress
    requires t.layout.Valid()
  {
    var candidate := Vector2(p.current.x + step.x, p.current.y + step.y);
    var block := Obstacle(t, occupied, player, p.current, p.room, candidate);
    if block != Clear then p.(result := Noted(p.result, block))
    else
      var room := RoomAt(t.layout, TileOf(candidate));
      Progress(candidate, if room != 0 then room else p.room,
               Vector2(p.applied.x + step.x, p.applied.y + step.y), p.result)
  }

  const STILL := Vector2(0.0, 0.0)

  function Unmoved(position: Vector2): MotionResult {
    MotionResult(position, STILL, false, false, false, 0, 0, 0)
  }

  function Walked(t: Terrain, occupied: Occupied, player: PlayerState, desired: Vector2): Progress
    requires t.layout.Valid()
  {
    var position := player.body.position;
    var room := if player.body.currentRoom != 0 then player.body.currentRoom else RoomAt(t.layout, TileOf(position));
    var start := Progress(position, room, STILL, Unmoved(position));
    var freed := occupied - {TileOf(position)};
    var sideways := if desired.x != 0.0 then Along(t, freed, player, start, Vector2(desired.x, 0.0)) else start;
    if desired.y != 0.0 then Along(t, freed, player, sideways, Vector2(0.0, desired.y)) else sideways
  }

  function Resolved(t: Terrain, occupied: Occupied, player: PlayerState, desired: Vector2): (r: (MotionResult,
      Occupied))
    requires t.layout.Valid()
  {
    if desired == STILL then (Unmoved(player.body.position), occupied)
    else
      var p := Walked(t, occupied, player, desired);
      (p.result.(position := p.current, velocity := p.applied, moved := p.applied != STILL),
       (occupied - {TileOf(player.body.position)})[TileOf(p.current) := player.id])
  }

  // ---- the code ----

  // The occupancy map the players of a batch share.
  class Occupancy {
    var tiles: Occupied

    constructor (tiles: Occupied)
      ensures this.tiles == tiles
    {
      this.tiles := tiles;
    }
  }

  // Each occupied tile maps to the least id standing on it.
  ghost predicate LeastAt(players: seq<PlayerState>, occupied: Occupied) {
    && (forall i :: 0 <= i < |players| ==>
         TileOf(players[i].body.position) in occupied && occupied[TileOf(players[i].body.position)] <= players[i].id)
    && (forall tile :: tile in occupied ==> StandsAt(players, tile, occupied[tile]))
  }

  ghost predicate StandsAt(players: seq<PlayerState>, tile: Point, id: PlayerId) {
    exists i :: 0 <= i < |players| && TileOf(players[i].body.position) == tile && players[i].id == id
  }

  lemma StillStands(players: seq<PlayerState>, next: PlayerState, tile: Point, id: PlayerId)
    ensures StandsAt(players, tile, id) ==> StandsAt(players + [next], tile, id)
    ensures StandsAt(players + [next], TileOf(next.body.position), next.id)
  {
    hide TileOf;
    assert (players + [next])[|players|] == next;
    if i :| 0 <= i < |players| && TileOf(players[i].body.position) == tile && players[i].id == id {
      assert (players + [next])[i] == players[i];
    }
  }

  method BuildOccupiedTiles(players: seq<PlayerState>) returns (occupied: Occupied)
    ensures LeastAt(players, occupied)
  {
    hide TileOf, StandsAt;
    occupied := map[];
    for i := 0 to |players|
      invariant LeastAt(players[..i], occupied)
    {
      var player := players[i];
      var tile := TileOf(player.body.position);
      if tile !in occupied || player.id < occupied[tile] { occupied := occupied[tile := player.id]; }
      assert players[..i + 1] == players[..i] + [player];
      forall other | other in occupied ensures StandsAt(players[..i + 1], other, occupied[other]) {
        StillStands(players[..i], player, other, occupied[other]);
      }
    }
    assert players[..|players|] == players;
  }

  method TryStep(t: Terrain, occupied: Occupancy, player: PlayerState, p: Progress, step: Vector2)
      returns (next: Progress)
    requires t.layout.Valid()
    ensures next == Along(t, occupied.tiles, player, p, step)
  {
    var candidate := Vector2(p.current.x + step.x, p.current.y + step.y);
    next := p;
    var block := Obstacle(t, occupied.tiles, player, p.current, p.room, candidate);
    if block != Clear {
      next := next.(result := Noted(p.result, block));
    } else {
      next := next.(applied := Vector2(p.applied.x + step.x, p.applied.y + step.y), current := candidate);
      var room := RoomAt(t.layout, TileOf(candidate));
      if room != 0 { next := next.(room := room); }
    }
  }

  method ResolveVectorMotion(t: Terrain, occupied: Occupancy, player: PlayerState, desired: Vector2)
      returns (result: MotionResult)
    requires t.layout.Valid()
    modifies occupied
    ensures (result, occupied.tiles) == Resolved(t, old(occupied.tiles), player, desired)
  {
    hide Along, TileOf, RoomAt;
    var position := player.body.position;
    if desired.x == 0.0 && desired.y == 0.0 { return Unmoved(position); }
    var room := player.body.currentRoom;
    if room == 0 { room := RoomAt(t.layout, TileOf(position)); }
    occupied.tiles := occupied.tiles - {TileOf(position)};
    var p := Progress(position, room, STILL, Unmoved(position));
    if desired.x != 0.0 { p := TryStep(t, occupied, player, p, Vector2(desired.x, 0.0)); }
    if desired.y != 0.0 { p := TryStep(t, occupied, player, p, Vector2(0.0, desired.y)); }
    occupied.tiles := occupied.tiles[TileOf(p.current) := player.id];
    return p.result.(position := p.current, velocity := p.applied, moved := p.applied != STILL);
  }

  const BASE_STEP: real := 0.30
  const SPRINT_STEP: real := 0.425
  const MAX_KNOCKBACK_STEP: real := 1.50

  // `clamp` scales a vector down to a maximum length.
  type Clamp = (Vector2, real) -> Vector2

  predicate HasActiveEffect(effects: seq<EffectState>, effect: nat, tick: nat) {
    exists i :: 0 <= i < |effects| && effects[i].effect == effect
        && (effects[i].endsTick == 0 || tick <= effects[i].endsTick)
  }

  // The effect that allows sprinting.
  const SPEED_BOOST: nat := 1

  predicate HeldStill(player: PlayerState, tick: nat) {
    || (player.body.solitaryUntil != 0 && tick <= player.body.solitaryUntil)
    || (player.body.stunnedUntil != 0 && tick <= player.body.stunnedUntil)
  }

  function MaxStep(player: PlayerState, sprint: bool, tick: nat): real {
    if sprint || HasActiveEffect(player.body.effects, SPEED_BOOST, tick) then SPRINT_STEP else BASE_STEP
  }

  method ResolveMoveIntent(t: Terrain, occupied: Occupancy, player: PlayerState, move: Vector2, sprint: bool,
                           tick: nat, clamp: Clamp) returns (result: MotionResult)
    requires t.layout.Valid()
    modifies occupied
    ensures HeldStill(player, tick) ==>
      result == Unmoved(player.body.position).(byStun := true) && occupied.tiles == old(occupied.tiles)
    ensures !HeldStill(player, tick) ==>
      (result, occupied.tiles) == Resolved(t, old(occupied.tiles), player, clamp(move, MaxStep(player, sprint, tick)))
  {
    if player.body.solitaryUntil != 0 && tick <= player.body.solitaryUntil {
      return Unmoved(player.body.position).(byStun := true);
    }
    if player.body.stunnedUntil != 0 && tick <= player.body.stunnedUntil {
      return Unmoved(player.body.position).(byStun := true);
    }
    var maxStep := BASE_STEP;
    if HasActiveEffect(player.body.effects, SPEED_BOOST, tick) { maxStep := SPRINT_STEP; }
    if sprint {
      if SPRINT_STEP > maxStep { maxStep := SPRINT_STEP; }
    }
    result := ResolveVectorMotion(t, occupied, player, clamp(move, maxStep));
  }

  function Knocked(player: PlayerState, motion: MotionResult, tick: nat, stun: nat): PlayerState {
    player.(body := player.body.(position := motion.position, velocity := motion.velocity,
      stunnedUntil := if stun > 0 && tick + stun > player.body.stunnedUntil
          then tick + stun else player.body.stunnedUntil))
  }

  method ApplyKnockback(t: Terrain, occupied: Occupancy, player: PlayerState, impulse: Vector2,
                        tick: nat, stun: nat, clamp: Clamp) returns (next: PlayerState, motion: MotionResult)
    requires t.layout.Valid()
    modifies occupied
    ensures var resolved := Resolved(t, old(occupied.tiles), player, clamp(impulse, MAX_KNOCKBACK_STEP));
      && occupied.tiles == resolved.1
      && next == Knocked(player, resolved.0, tick, stun)
      && motion == resolved.0.(stunnedUntil := next.body.stunnedUntil)
  {
    motion := ResolveVectorMotion(t, occupied, player, clamp(impulse, MAX_KNOCKBACK_STEP));
    next := player.(body := player.body.(position := motion.position, velocity := motion.velocity));
    if stun > 0 {
      var stunnedUntil := tick + stun;
      if stunnedUntil > next.body.stunnedUntil {
        next := next.(body := next.body.(stunnedUntil := stunnedUntil));
      }
    }
    motion := motion.(stunnedUntil := next.body.stunnedUntil);
  }

  // ---- where a motion may end ----

  // A tile a player may end on: inside the map, walkable, no closed door, nobody else's.
  predicate MayStand(t: Terrain, occupied: Occupied, player: PlayerId, tile: Point)
    requires t.layout.Valid()
  {
    && t.layout.InBounds(tile) && t.layout.IsWalkable(tile)
    && (tile in t.doorAt ==> IsDoorOpen(t.doors, t.doorAt[tile].id))
    && (tile in occupied && occupied[tile] != 0 ==> occupied[tile] == player)
  }

  lemma ClearMayStand(t: Terrain, occupied: Occupied, player: PlayerState, current: Vector2, room: RoomId,
      position: Vector2)
    requires t.layout.Valid() && Obstacle(t, occupied, player, current, room, position) == Clear
    ensures MayStand(t, occupied, player.id, TileOf(position))
  {
  }

  // One axis at a time: either nothing moves, or the whole step is applied onto a free tile.
  lemma AlongOutcome(t: Terrain, occupied: Occupied, player: PlayerState, p: Progress, step: Vector2)
    requires t.layout.Valid()
    ensures var next := Along(t, occupied, player, p, step);
      || (next.current == p.current && next.applied == p.applied)
      || (next.current == Vector2(p.current.x + step.x, p.current.y + step.y)
          && next.applied == Vector2(p.applied.x + step.x, p.applied.y + step.y)
          && MayStand(t, occupied, player.id, TileOf(next.current)))
  {
    var candidate := Vector2(p.current.x + step.x, p.current.y + step.y);
    if Obstacle(t, occupied, player, p.current, p.room, candidate) == Clear {
      ClearMayStand(t, occupied, player, p.current, p.room, candidate);
    }
    hide Obstacle, MayStand, TileOf, RoomAt;
  }

  // A player that moved ends on a tile it may stand on, displaced along each axis by all of the
  // desired amount or none of it; a player that did not move is where it was.
  lemma MotionEndsWell(t: Terrain, occupied: Occupied, player: PlayerState, desired: Vector2)
    requires t.layout.Valid()
    ensures var r := Resolved(t, occupied, player, desired).0;
      && (r.moved ==> MayStand(t, occupied - {TileOf(player.body.position)}, player.id, TileOf(r.position)))
      && r.position == Vector2(player.body.position.x + r.velocity.x, player.body.position.y + r.velocity.y)
      && r.velocity.x in {0.0, desired.x} && r.velocity.y in {0.0, desired.y}
      && (r.moved <==> r.velocity != STILL)
  {
    hide Along, MayStand, TileOf, RoomAt;
    var position := player.body.position;
    var room := if player.body.currentRoom != 0 then player.body.currentRoom else RoomAt(t.layout, TileOf(position));
    var start := Progress(position, room, STILL, Unmoved(position));
    var freed := occupied - {TileOf(position)};
    AlongOutcome(t, freed, player, start, Vector2(desired.x, 0.0));
    var sideways := if desired.x != 0.0 then Along(t, freed, player, start, Vector2(desired.x, 0.0)) else start;
    AlongOutcome(t, freed, player, sideways, Vector2(0.0, desired.y));
  }

  // ---- whole runs ----

  // Everyone on a tile of their own, the occupancy map saying exactly who stands where.
  ghost predicate Apart(players: seq<PlayerState>) {
    forall i, j :: 0 <= i < j < |players| ==>
      players[i].id != players[j].id && TileOf(players[i].body.position) != TileOf(players[j].body.position)
  }

  ghost predicate Exact(players: seq<PlayerState>, occupied: Occupied) {
    && (forall i :: 0 <= i < |players| ==> players[i].id != 0)
    && (forall i :: 0 <= i < |players| ==>
         TileOf(players[i].body.position) in occupied && occupied[TileOf(players[i].body.position)] == players[i].id)
    && (forall tile :: tile in occupied ==> StandsAt(players, tile, occupied[tile]))
  }

  // For players already apart, the map built from scratch is exact.
  lemma BuiltExact(players: seq<PlayerState>, occupied: Occupied)
    requires Apart(players) && LeastAt(players, occupied) && forall i :: 0 <= i < |players| ==> players[i].id != 0
    ensures Exact(players, occupied)
  {
    hide TileOf;
    forall i | 0 <= i < |players| ensures occupied[TileOf(players[i].body.position)] == players[i].id {
      var tile := TileOf(players[i].body.position);
      assert StandsAt(players, tile, occupied[tile]);
      var k :| 0 <= k < |players| && TileOf(players[k].body.position) == tile && players[k].id == occupied[tile];
      assert k == i;
    }
  }

  lemma FinalTileFree(t: Terrain, players: seq<PlayerState>, occupied: Occupied, i: nat, desired: Vector2, j: nat)
    requires t.layout.Valid() && i < |players| && j < |players| && i != j
    requires Apart(players) && Exact(players, occupied)
    ensures TileOf(Resolved(t, occupied, players[i], desired).0.position) != TileOf(players[j].body.position)
  {
    MotionEndsWell(t, occupied, players[i], desired);
    hide Resolved, TileOf;
    var a, b := if i < j then i else j, if i < j then j else i;
    assert players[a].id != players[b].id && TileOf(players[a].body.position) != TileOf(players[b].body.position);
  }

  // Player i as a motion leaves it: the same player, standing where the motion ended.
  predicate MovedTo(before: PlayerState, after: PlayerState, position: Vector2) {
    after.id == before.id && after.body.position == position
  }

  lemma MoveKeepsApart(t: Terrain, players: seq<PlayerState>, occupied: Occupied, i: nat, desired: Vector2,
      next: PlayerState)
    requires t.layout.Valid() && i < |players| && Apart(players) && Exact(players, occupied)
    requires MovedTo(players[i], next, Resolved(t, occupied, players[i], desired).0.position)
    ensures Apart(players[i := next])
  {
    var players' := players[i := next];
    forall a, b | 0 <= a < b < |players'|
      ensures players'[a].id != players'[b].id && TileOf(players'[a].body.position) != TileOf(players'[b].body.position)
    {
      if a == i { FinalTileFree(t, players, occupied, i, desired, b); }
      else if b == i { FinalTileFree(t, players, occupied, i, desired, a); }
      hide TileOf, Resolved, Exact;
    }
  }

  // The map after a motion: the mover's old tile freed, its new one taken.
  lemma MapMoved(t: Terrain, occupied: Occupied, player: PlayerState, desired: Vector2)
    requires t.layout.Valid() && TileOf(player.body.position) in occupied
        && occupied[TileOf(player.body.position)] == player.id
    ensures var r := Resolved(t, occupied, player, desired);
      r.1 == (occupied - {TileOf(player.body.position)})[TileOf(r.0.position) := player.id]
  {
    hide Walked, TileOf;
  }

  lemma MoveKeepsExact(t: Terrain, players: seq<PlayerState>, occupied: Occupied, i: nat, desired: Vector2,
      next: PlayerState)
    requires t.layout.Valid() && i < |players| && Apart(players) && Exact(players, occupied)
    requires MovedTo(players[i], next, Resolved(t, occupied, players[i], desired).0.position)
    ensures Exact(players[i := next], Resolved(t, occupied, players[i], desired).1)
  {
    MapMoved(t, occupied, players[i], desired);
    forall j | 0 <= j < |players| && j != i
      ensures TileOf(Resolved(t, occupied, players[i], desired).0.position) != TileOf(players[j].body.position)
      ensures TileOf(players[i].body.position) != TileOf(players[j].body.position)
    {
      FinalTileFree(t, players, occupied, i, desired, j);
      var a, b := if i < j then i else j, if i < j then j else i;
      assert TileOf(players[a].body.position) != TileOf(players[b].body.position);
    }
    RelocatedExact(players, occupied, i, next);
  }

  lemma RelocatedExact(players: seq<PlayerState>, occupied: Occupied, i: nat, next: PlayerState)
    requires i < |players| && Exact(players, occupied) && next.id == players[i].id
    requires forall j :: 0 <= j < |players| && j != i ==>
      TileOf(players[j].body.position) !in {TileOf(next.body.position), TileOf(players[i].body.position)}
    ensures Exact(players[i := next],
        (occupied - {TileOf(players[i].body.position)})[TileOf(next.body.position) := next.id])
  {
    hide TileOf;
    var players', left, reached := players[i := next], TileOf(players[i].body.position), TileOf(next.body.position);
    var occupied' := (occupied - {left})[reached := next.id];
    forall tile | tile in occupied' ensures StandsAt(players', tile, occupied'[tile]) {
      if tile == reached {
        assert TileOf(players'[i].body.position) == tile;
      } else {
        var k :| 0 <= k < |players| && TileOf(players[k].body.position) == tile && players[k].id == occupied[tile];
        assert players'[k] == players[k];
      }
    }
  }

  // One player's turn: an intent or a knockback, over the terrain as it then is.
  datatype Step =
    | Intent(i: nat, t: Terrain, move: Vector2, sprint: bool, tick: nat)
    | Knock(i: nat, t: Terrain, impulse: Vector2, tick: nat, stun: nat)

  datatype World = World(players: seq<PlayerState>, occupied: Occupied)

  // The player takes on the motion's position and velocity, and the room it ends in.
  function Settled(player: PlayerState, motion: MotionResult, l: Layout): PlayerState
    requires l.Valid()
  {
    var room := RoomAt(l, TileOf(motion.position));
    player.(body := player.body.(position := motion.position, velocity := motion.velocity,
                                 currentRoom := if room != 0 then room else player.body.currentRoom))
  }

  function After(w: World, step: Step, clamp: Clamp): World
    requires step.t.layout.Valid()
  {
    if step.i >= |w.players| then w
    else
      var player := w.players[step.i];
      match step
      case Intent(i, t, move, sprint, tick) =>
        if HeldStill(player, tick)
        then w.(players := w.players[i := Settled(player, Unmoved(player.body.position), t.layout)])
        else
          var r := Resolved(t, w.occupied, player, clamp(move, MaxStep(player, sprint, tick)));
          World(w.players[i := Settled(player, r.0, t.layout)], r.1)
      case Knock(i, t, impulse, tick, stun) =>
        var r := Resolved(t, w.occupied, player, clamp(impulse, MAX_KNOCKBACK_STEP));
        World(w.players[i := Settled(Knocked(player, r.0, tick, stun), r.0, t.layout)], r.1)
  }

  function Run(w: World, steps: seq<Step>, clamp: Clamp): World
    requires forall k :: 0 <= k < |steps| ==> steps[k].t.layout.Valid()
  {
    if steps == [] then w else After(Run(w, steps[..|steps| - 1], clamp), steps[|steps| - 1], clamp)
  }

  ghost predicate Ordered(w: World) { Apart(w.players) && Exact(w.players, w.occupied) }

  ghost predicate SamePlaces(a: seq<PlayerState>, b: seq<PlayerState>) {
    |a| == |b| && forall k :: 0 <= k < |a| ==> a[k].id == b[k].id && a[k].body.position == b[k].body.position
  }

  lemma PlacesApart(a: seq<PlayerState>, b: seq<PlayerState>)
    requires SamePlaces(a, b) && Apart(a)
    ensures Apart(b)
  {
    hide TileOf;
  }

  lemma PlacesExact(a: seq<PlayerState>, b: seq<PlayerState>, occupied: Occupied)
    requires SamePlaces(a, b) && Exact(a, occupied)
    ensures Exact(b, occupied)
  {
    hide TileOf;
    forall tile | tile in occupied ensures StandsAt(b, tile, occupied[tile]) {
      var k :| 0 <= k < |a| && TileOf(a[k].body.position) == tile && a[k].id == occupied[tile];
      assert b[k].id == a[k].id;
    }
  }

  lemma RestKeeps(w: World, i: nat, next: PlayerState)
    requires Ordered(w) && i < |w.players| && MovedTo(w.players[i], next, w.players[i].body.position)
    ensures Ordered(w.(players := w.players[i := next]))
  {
    hide Apart, Exact;
    var players' := w.players[i := next];
    PlacesApart(w.players, players');
    PlacesExact(w.players, players', w.occupied);
  }

  lemma StepKeeps(w: World, step: Step, clamp: Clamp)
    requires Ordered(w) && step.t.layout.Valid()
    ensures Ordered(After(w, step, clamp))
  {
    hide TileOf, Resolved, Apart, Exact, RoomAt;
    if step.i < |w.players| {
      var player := w.players[step.i];
      match step
      case Intent(i, t, move, sprint, tick) =>
        if HeldStill(player, tick) {
          RestKeeps(w, i, Settled(player, Unmoved(player.body.position), t.layout));
        } else {
          var desired := clamp(move, MaxStep(player, sprint, tick));
          var next := Settled(player, Resolved(t, w.occupied, player, desired).0, t.layout);
          MoveKeepsApart(t, w.players, w.occupied, i, desired, next);
          MoveKeepsExact(t, w.players, w.occupied, i, desired, next);
        }
      case Knock(i, t, impulse, tick, stun) =>
        var desired := clamp(impulse, MAX_KNOCKBACK_STEP);
        var r := Resolved(t, w.occupied, player, desired).0;
        var next := Settled(Knocked(player, r, tick, stun), r, t.layout);
        MoveKeepsApart(t, w.players, w.occupied, i, desired, next);
        MoveKeepsExact(t, w.players, w.occupied, i, desired, next);
    }
  }

  // Starting apart with an exact map, any intents and knockbacks, whatever doors do meanwhile,
  // keep the players on tiles of their own and the map exact.
  lemma {:induction false} NobodyShares(w: World, steps: seq<Step>, clamp: Clamp)
    requires Ordered(w) && forall k :: 0 <= k < |steps| ==> steps[k].t.layout.Valid()
    ensures Ordered(Run(w, steps, clamp))
  {
    hide Ordered, After;
    if steps != [] {
      NobodyShares(w, steps[..|steps| - 1], clamp);
      StepKeeps(Run(w, steps[..|steps| - 1], clamp), steps[|steps| - 1], clamp);
    }
  }
}
