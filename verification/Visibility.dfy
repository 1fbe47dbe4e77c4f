// Per-viewer projection of snapshots (internal/gamecore/roles/visibility.go).

module Visibility {
  import opened Records
  import opened State

  const NoAttempt := EscapeFeedback(0, 0, 0, 0)

  function HidePrivate(p: PlayerBody): PlayerBody {
    p.(inventory := [], cards := [], effects := [], lastEscapeAttempt := NoAttempt,
       bullets := 0, tempHeartsHalf := 0, stunnedUntil := 0, solitaryUntil := 0)
  }

  function ProjectBody(p: PlayerBody): PlayerBody {
    var out := HidePrivate(p);
    if out.role == Warden then out.(alignment := NoAlignment)
    else out.(role := NoRole, faction := NoFaction, alignment := NoAlignment)
  }

  function ProjectPlayer(p: PlayerState, viewer: PlayerId): PlayerState {
    if viewer != 0 && p.id == viewer then p else Record(p.id, ProjectBody(p.body))
  }

  function ProjectPlayers(players: seq<PlayerState>, viewer: PlayerId): (out: seq<PlayerState>)
    ensures |out| == |players|
    ensures forall i :: 0 <= i < |out| ==> out[i] == ProjectPlayer(players[i], viewer)
  {
    seq(|players|, i requires 0 <= i < |players| => ProjectPlayer(players[i], viewer))
  }

  function ProjectState(s: GameState, viewer: PlayerId): GameState {
    s.(players := ProjectPlayers(s.players, viewer))
  }

  function ProjectDelta(d: GameDelta, viewer: PlayerId): GameDelta {
    d.(changedPlayers := ProjectPlayers(d.changedPlayers, viewer))
  }

  function Projected(snapshot: Snapshot, viewer: PlayerId): Snapshot {
    match snapshot
    case Full(tick, state, acks) =>
      Full(tick, if state.Some? then Some(ProjectState(state.value, viewer)) else None, acks)
    case Delta(tick, baseTick, delta, acks) =>
      Delta(tick, baseTick, if delta.Some? then Some(ProjectDelta(delta.value, viewer)) else None, acks)
  }

  method ProjectList(players: seq<PlayerState>, viewer: PlayerId) returns (out: seq<PlayerState>)
    ensures out == ProjectPlayers(players, viewer)
  {
    out := [];
    for i := 0 to |players|
      invariant |out| == i
      invariant forall j :: 0 <= j < i ==> out[j] == ProjectPlayer(players[j], viewer)
    {
      out := out + [ProjectPlayer(players[i], viewer)];
    }
  }

  method ProjectSnapshotForViewer(snapshot: Snapshot, viewer: PlayerId) returns (out: Snapshot)
    ensures out == Projected(snapshot, viewer)
  {
    out := snapshot;
    match snapshot {
      case Full(_, state, _) =>
        if state.Some? {
          var players := ProjectList(state.value.players, viewer);
          out := snapshot.(state := Some(state.value.(players := players)));
        }
      case Delta(_, _, delta, _) =>
        if delta.Some? {
          var players := ProjectList(delta.value.changedPlayers, viewer);
          out := snapshot.(delta := Some(delta.value.(changedPlayers := players)));
        }
    }
  }

  // Two records of one player agree on everything another viewer may see.
  predicate SameInPublic(a: PlayerBody, b: PlayerBody) {
    && (a.role == Warden <==> b.role == Warden)
    && (a.role == Warden ==> a.faction == b.faction)
    && a.name == b.name && a.connected == b.connected && a.alive == b.alive
    && a.heartsHalf == b.heartsHalf && a.livesRemaining == b.livesRemaining
    && a.equippedItem == b.equippedItem && a.inventorySlots == b.inventorySlots
    && a.position == b.position && a.velocity == b.velocity && a.facing == b.facing
    && a.currentRoom == b.currentRoom && a.assignedCell == b.assignedCell
    && a.lockedInCell == b.lockedInCell && a.assignedAbility == b.assignedAbility
    && a.nightCardChoices == b.nightCardChoices && a.lastActionFeedback == b.lastActionFeedback
  }

  // What a viewer learns about a player is the whole record if it is the viewer's own, and
  // otherwise exactly the public fields: no private field can influence what is sent.
  lemma ProjectionReveals(a: PlayerState, b: PlayerState, viewer: PlayerId)
    requires a.id == b.id
    ensures ProjectPlayer(a, viewer) == ProjectPlayer(b, viewer)
      <==> if viewer != 0 && a.id == viewer then a == b else SameInPublic(a.body, b.body)
  {
    if !(viewer != 0 && a.id == viewer) && SameInPublic(a.body, b.body) {
      assert ProjectBody(a.body) == ProjectBody(b.body);
    }
  }

  // ---- projection commutes with lookup tables and with the client's upsert and remove ----

  function ProjectTable(table: map<nat, PlayerBody>, viewer: PlayerId): map<nat, PlayerBody> {
    map id | id in table :: ProjectPlayer(Record(id, table[id]), viewer).body
  }

  lemma {:induction false} IndexProjected(players: seq<PlayerState>, viewer: PlayerId)
    ensures Index(ProjectPlayers(players, viewer)) == ProjectTable(Index(players), viewer)
  {
    if players != [] {
      var n := |players| - 1;
      IndexProjected(players[..n], viewer);
      assert ProjectPlayers(players, viewer)[..n] == ProjectPlayers(players[..n], viewer);
    }
  }

  lemma ProjectedAscending(players: seq<PlayerState>, viewer: PlayerId)
    requires AscendingById(players)
    ensures AscendingById(ProjectPlayers(players, viewer))
  {
  }

  lemma PatchProjected(existing: seq<PlayerState>, changed: seq<PlayerState>, removed: seq<nat>, viewer: PlayerId)
    requires AscendingById(existing)
    ensures Patched(ProjectPlayers(existing, viewer), ProjectPlayers(changed, viewer), removed)
         == ProjectPlayers(Patched(existing, changed, removed), viewer)
  {
    hide Patched, Index, AscendingById, ProjectPlayers, ProjectTable;
    var whole := Patched(existing, changed, removed);
    var patchedCopy := Patched(ProjectPlayers(existing, viewer), ProjectPlayers(changed, viewer), removed);
    ProjectedAscending(existing, viewer);
    PatchTable(existing, changed, removed);
    PatchTable(ProjectPlayers(existing, viewer), ProjectPlayers(changed, viewer), removed);
    ProjectedAscending(whole, viewer);
    IndexProjected(existing, viewer);
    IndexProjected(changed, viewer);
    IndexProjected(whole, viewer);
    TablesProjected(Index(existing), Index(changed), IdSet(removed), viewer);
    SameTableSameList(patchedCopy, ProjectPlayers(whole, viewer));
  }

  lemma TablesProjected(a: map<nat, PlayerBody>, b: map<nat, PlayerBody>, gone: set<nat>, viewer: PlayerId)
    ensures (ProjectTable(a, viewer) + ProjectTable(b, viewer)) - gone == ProjectTable((a + b) - gone, viewer)
  {
  }
}
