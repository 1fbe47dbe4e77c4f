// The client's copy of the match (internal/client/netclient/snapshot_store.go).

module SnapshotStore {
  import opened Records
  import opened State
  import opened Visibility

  datatype SnapshotMeta = SnapshotMeta(tick: nat, acks: seq<PlayerAck>)

  // The state a delta turns `s` into.
  ghost function Folded(s: GameState, d: GameDelta): GameState {
    s.(players := Patched(s.players, d.changedPlayers, d.removedPlayers),
       entities := Patched(s.entities, d.changedEntities, d.removedEntities),
       world := s.world.(
         doors := Upserted(s.world.doors, d.changedDoors),
         cells := Upserted(s.world.cells, d.changedCells),
         zones := Upserted(s.world.zones, d.changedZones),
         powerOn := OrElse(d.powerOn, s.world.powerOn),
         alarm := OrElse(d.alarm, s.world.alarm),
         blackMarketRoom := OrElse(d.blackMarketRoom, s.world.blackMarketRoom)),
       phase := OrElse(d.phase, s.phase),
       status := OrElse(d.status, s.status),
       cycleCount := OrElse(d.cycleCount, s.cycleCount),
       gameOver := if d.gameOver.Some? then d.gameOver else s.gameOver)
  }

  predicate Accepts(held: Option<GameState>, snapshot: Snapshot) {
    match snapshot
    case Full(_, state, _) => state.Some?
    case Delta(tick, _, delta, _) => delta.Some? && held.Some? && tick > held.value.tick
  }

  // What the store holds after a snapshot arrives.
  ghost function Received(held: Option<GameState>, snapshot: Snapshot): Option<GameState> {
    if !Accepts(held, snapshot) then held
    else
      match snapshot
      case Full(_, state, _) => state
      case Delta(tick, _, delta, _) => Some(Folded(held.value, delta.value).(tick := tick))
  }

  class Store {
    var state: Option<GameState>
    var meta: Option<SnapshotMeta>

    constructor ()
      ensures state == None && meta == None
    {
      state, meta := None, None;
    }

    method ApplySnapshot(snapshot: Snapshot) returns (applied: bool)
      modifies this
      ensures applied == Accepts(old(state), snapshot)
      ensures state == Received(old(state), snapshot)
      ensures meta == if applied then Some(SnapshotMeta(snapshot.tick, snapshot.acks)) else old(meta)
    {
      match snapshot {
        case Full(tick, full, acks) =>
          if full.None? { return false; }
          state := full;
          meta := Some(SnapshotMeta(tick, acks));
          return true;
        case Delta(tick, _, delta, acks) =>
          if delta.None? || state.None? { return false; }
          if tick <= state.value.tick { return false; }
          ApplyDelta(delta.value);
          state := Some(state.value.(tick := tick));
          meta := Some(SnapshotMeta(tick, acks));
          return true;
      }
    }

    method ApplyDelta(delta: GameDelta)
      requires state.Some?
      modifies this`state
      ensures state == Some(Folded(old(state).value, delta))
    {
      var s := state.value;
      var players := Upsert(s.players, delta.changedPlayers);
      players := Remove(players, delta.removedPlayers);
      s := s.(players := players);

      var entities := Upsert(s.entities, delta.changedEntities);
      entities := Remove(entities, delta.removedEntities);
      s := s.(entities := entities);

      var doors := Upsert(s.world.doors, delta.changedDoors);
      var cells := Upsert(s.world.cells, delta.changedCells);
      var zones := Upsert(s.world.zones, delta.changedZones);
      s := s.(world := s.world.(doors := doors, cells := cells, zones := zones));

      if delta.phase.Some? { s := s.(phase := delta.phase.value); }
      if delta.status.Some? { s := s.(status := delta.status.value); }
      if delta.cycleCount.Some? { s := s.(cycleCount := delta.cycleCount.value); }
      if delta.powerOn.Some? { s := s.(world := s.world.(powerOn := delta.powerOn.value)); }
      if delta.alarm.Some? { s := s.(world := s.world.(alarm := delta.alarm.value)); }
      if delta.blackMarketRoom.Some? { s := s.(world := s.world.(blackMarketRoom := delta.blackMarketRoom.value)); }
      if delta.gameOver.Some? { s := s.(gameOver := delta.gameOver); }
      state := Some(s);
    }
  }

  // Folding a projected delta into a projected copy is projecting the folded state.
  lemma FoldProjected(s: GameState, d: GameDelta, viewer: PlayerId)
    requires AscendingById(s.players)
    ensures Folded(ProjectState(s, viewer), ProjectDelta(d, viewer)) == ProjectState(Folded(s, d), viewer)
  {
    PatchProjected(s.players, d.changedPlayers, d.removedPlayers, viewer);
  }
}
