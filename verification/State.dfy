// The match state shared by server and client (internal/shared/model/state.go).
// Identifiers and the string-valued enumerations that no property looks into are
// naturals ordered by <; 0 stands for the empty identifier.

module State {
  import opened Records

  type uint8 = n: nat | n < 256
  type PlayerId = nat
  type RoomId = nat

  datatype Vector2 = Vector2(x: real, y: real)

  datatype PhaseType = Day | Night
  datatype PhaseState = PhaseState(current: PhaseType, startedTick: nat, endsTick: nat)

  datatype MatchStatus = Lobby | Running | GameOver

  datatype Role = NoRole | Warden | Deputy | GangLeader | GangMember | Snitch | NeutralPrisoner
  datatype Faction = NoFaction | Authority | Prisoner | Neutral
  datatype Alignment = NoAlignment | Good | Evil | NeutralAligned

  // A stack is the record of its item; the body is the quantity.
  type ItemStack = Record<uint8>
  datatype EffectState = EffectState(effect: nat, endsTick: nat, stacks: uint8,
    sourceEntity: nat, sourcePlayer: PlayerId)
  datatype EscapeFeedback = EscapeFeedback(route: nat, status: nat, reason: nat, tick: nat)
  datatype ActionFeedback = ActionFeedback(kind: nat, level: nat, message: nat, tick: nat)

  datatype PlayerBody = PlayerBody(
    name: nat, connected: bool, alive: bool,
    faction: Faction, alignment: Alignment, role: Role,
    heartsHalf: uint8, tempHeartsHalf: uint8, bullets: uint8, livesRemaining: uint8,
    equippedItem: nat, inventorySlots: uint8,
    position: Vector2, velocity: Vector2, facing: Vector2,
    currentRoom: RoomId, assignedCell: nat, lockedInCell: nat, assignedAbility: nat,
    stunnedUntil: nat, solitaryUntil: nat,
    inventory: seq<ItemStack>, cards: seq<nat>, nightCardChoices: seq<nat>, effects: seq<EffectState>,
    lastEscapeAttempt: EscapeFeedback, lastActionFeedback: ActionFeedback)

  datatype EntityBody = EntityBody(
    kind: nat, owner: PlayerId, position: Vector2, velocity: Vector2,
    heartsHalf: int, active: bool, room: RoomId, tags: seq<nat>)

  datatype DoorBody = DoorBody(
    roomA: RoomId, roomB: RoomId, open: bool, locked: bool, canClose: bool,
    blockedUntil: nat, lockedBy: PlayerId)

  datatype CellBody = CellBody(owner: PlayerId, door: nat, occupants: seq<PlayerId>, stash: seq<ItemStack>)

  datatype ZoneBody = ZoneBody(room: RoomId, restricted: bool, name: nat)

  type PlayerState = Record<PlayerBody>
  type EntityState = Record<EntityBody>
  type DoorState = Record<DoorBody>
  type CellState = Record<CellBody>
  type ZoneState = Record<ZoneBody>

  datatype AlarmState = AlarmState(active: bool, endsTick: nat, triggeredBy: PlayerId)

  datatype MapState = MapState(
    powerOn: bool, alarm: AlarmState, blackMarketRoom: RoomId,
    doors: seq<DoorState>, cells: seq<CellState>, zones: seq<ZoneState>)

  datatype GameOverState = GameOverState(reason: nat, endedTick: nat, winners: seq<PlayerId>, notes: nat)

  datatype GameState = GameState(
    matchId: nat, tick: nat, status: MatchStatus, cycleCount: uint8, phase: PhaseState,
    world: MapState, players: seq<PlayerState>, entities: seq<EntityState>, gameOver: Option<GameOverState>)

  datatype PlayerAck = PlayerAck(player: PlayerId, lastProcessedClientSeq: nat)

  datatype GameDelta = GameDelta(
    changedPlayers: seq<PlayerState>, removedPlayers: seq<PlayerId>,
    changedEntities: seq<EntityState>, removedEntities: seq<nat>,
    changedDoors: seq<DoorState>, changedCells: seq<CellState>, changedZones: seq<ZoneState>,
    phase: Option<PhaseState>, status: Option<MatchStatus>, cycleCount: Option<uint8>,
    powerOn: Option<bool>, alarm: Option<AlarmState>, blackMarketRoom: Option<RoomId>,
    gameOver: Option<GameOverState>)

  datatype Snapshot =
    | Full(tick: nat, state: Option<GameState>, acks: seq<PlayerAck>)
    | Delta(tick: nat, baseTick: nat, delta: Option<GameDelta>, acks: seq<PlayerAck>)

  // Every slice of the state is kept in ascending id order.
  ghost predicate Ordered(s: GameState) {
    && AscendingById(s.players)
    && AscendingById(s.entities)
    && AscendingById(s.world.doors)
    && AscendingById(s.world.cells)
    && AscendingById(s.world.zones)
  }

  function OrElse<T>(sent: Option<T>, held: T): T {
    if sent.Some? then sent.value else held
  }
}
