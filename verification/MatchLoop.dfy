// One server tick of a running match: building the delta and keeping the snapshot
// window (internal/server/game/manager.go, runMatchLoop and its collectors).

module MatchLoop {
  import opened Records
  import opened State
  import opened SnapshotStore

  // What the helpers called by one tick did: the state after the inputs ran with the ids they
  // marked, the state after the phase advanced with the ids that step marked, and the verdict.
  datatype TickWork = TickWork(
    afterInputs: GameState,
    playerMarks: set<nat>, doorMarks: set<nat>, cellMarks: set<nat>,
    entityMarks: set<nat>, removedEntities: set<nat>,
    afterPhase: GameState, transitions: nat, phasePlayers: set<nat>, nightEntities: seq<EntityState>,
    outcome: Option<GameOverState>, acks: seq<PlayerAck>)

  function Final(w: TickWork): GameState {
    if w.outcome.Some? then w.afterPhase.(status := GameOver, gameOver := w.outcome) else w.afterPhase
  }

  function Restricted<T>(table: map<nat, T>, marks: set<nat>): map<nat, T> {
    map id | id in table && id in marks :: table[id]
  }

  ghost function Collected<T>(list: seq<Record<T>>, marks: set<nat>): seq<Record<T>> {
    Listing(Restricted(Index(list), marks))
  }

  // The record sent for a marked player: an id the state does not hold reads position 0 of the list.
  function RecordFor(players: seq<PlayerState>, id: nat): PlayerState
    requires players != []
  {
    if id in Index(players) then Record(id, Index(players)[id]) else players[0]
  }

  ghost function CollectedPlayers(players: seq<PlayerState>, marks: set<nat>): seq<PlayerState> {
    if players == [] then []
    else
      var ids := AscendingIds(marks);
      seq(|ids|, i requires 0 <= i < |ids| => RecordFor(players, ids[i]))
  }

  // The players whose records that sends.
  function SentMarks(players: seq<PlayerState>, marks: set<nat>): set<nat> {
    if players == [] || marks <= Index(players).Keys then marks
    else (marks * Index(players).Keys) + {players[0].id}
  }

  ghost function MergedPlayers(players: seq<PlayerState>, baseline: seq<PlayerState>,
      extra: set<nat>): seq<PlayerState> {
    if extra == {} then baseline
    else Listing(Index(baseline) + Restricted(Index(players), extra))
  }

  function IfChanged<T(==)>(now: T, before: T): Option<T> {
    if now != before then Some(now) else None
  }

  ghost function DeltaOf(before: GameState, w: TickWork): GameDelta {
    var after := Final(w);
    GameDelta(
      MergedPlayers(w.afterPhase.players, CollectedPlayers(w.afterInputs.players, w.playerMarks), w.phasePlayers), [],
      Listing(Index(Collected(w.afterInputs.entities, w.entityMarks)) + Index(w.nightEntities)),
      AscendingIds(w.removedEntities),
      Collected(w.afterInputs.world.doors, w.doorMarks),
      Collected(w.afterInputs.world.cells, w.cellMarks), [],
      if w.transitions > 0 then Some(after.phase) else None,
      IfChanged(after.status, w.afterInputs.status),
      IfChanged(after.cycleCount, before.cycleCount),
      IfChanged(after.world.powerOn, before.world.powerOn),
      IfChanged(after.world.alarm, before.world.alarm),
      IfChanged(after.world.blackMarketRoom, before.world.blackMarketRoom),
      if w.afterInputs.gameOver.None? then after.gameOver else None)
  }

  const HISTORY_LIMIT: nat := 256

  function Stored(history: map<nat, Snapshot>, snapshot: Snapshot): map<nat, Snapshot> {
    var added := history[snapshot.tick := snapshot];
    if snapshot.tick <= HISTORY_LIMIT then added
    else map tick | tick in added && tick >= snapshot.tick - HISTORY_LIMIT :: added[tick]
  }

  // The history with the ticks before the cutoff gone, but for those still pending.
  ghost function Pruned(history: map<nat, Snapshot>, pending: set<nat>, cutoff: nat): map<nat, Snapshot> {
    map tick | tick in history && (tick in pending || tick >= cutoff) :: history[tick]
  }

  lemma PrunedNext(history: map<nat, Snapshot>, pending: set<nat>, tick: nat, cutoff: nat)
    requires tick in pending
    ensures Pruned(history, pending - {tick}, cutoff) ==
      if tick < cutoff then Pruned(history, pending, cutoff) - {tick} else Pruned(history, pending, cutoff)
  {
  }

  lemma PrunedEnds(history: map<nat, Snapshot>, cutoff: nat)
    ensures Pruned(history, history.Keys, cutoff) == history
    ensures Pruned(history, {}, cutoff) == map tick | tick in history && tick >= cutoff :: history[tick]
  {
  }

  ghost function TicksAfter(history: map<nat, Snapshot>, after: nat): seq<nat> {
    AscendingIds(set tick | tick in history && tick > after)
  }

  ghost function Since(history: map<nat, Snapshot>, after: nat): (out: seq<Snapshot>) {
    var ticks := TicksAfter(history, after);
    seq(|ticks|, i requires 0 <= i < |ticks| => assert ticks[i] in ticks; history[ticks[i]])
  }

  method FindById<T>(list: seq<Record<T>>, id: nat) returns (idx: nat)
    ensures idx <= |list|
    ensures idx < |list| ==> list[idx].id == id
    ensures idx == |list| ==> id !in Index(list)
  {
    idx := 0;
    while idx < |list| && list[idx].id != id
      invariant idx <= |list|
      invariant forall j :: 0 <= j < idx ==> list[j].id != id
    {
      idx := idx + 1;
    }
    IndexMember(list, id);
  }

  lemma RestrictedNext<T>(table: map<nat, T>, ids: seq<nat>, k: nat)
    requires k < |ids|
    ensures Restricted(table, IdSet(ids[..k + 1]))
         == if ids[k] in table then Restricted(table, IdSet(ids[..k]))[ids[k] := table[ids[k]]]
            else Restricted(table, IdSet(ids[..k]))
  {
    assert ids[..k + 1] == ids[..k] + [ids[k]];
  }

  method CollectChanged<T>(list: seq<Record<T>>, changed: set<nat>) returns (out: seq<Record<T>>)
    requires AscendingById(list)
    ensures out == Collected(list, changed)
  {
    ghost var table := Index(list);
    var ids := SortedIds(changed);
    out := [];
    for k := 0 to |ids|
      invariant AscendingById(out)
      invariant Index(out) == Restricted(table, IdSet(ids[..k]))
    {
      var idx := FindById(list, ids[k]);
      RestrictedNext(table, ids, k);
      if idx < |list| {
        IndexAt(list);
        assert forall key :: key in Index(out) ==> key in ids[..k];
        AppendShape(out, list[idx]);
        out := out + [list[idx]];
      }
    }
    assert ids[..|ids|] == ids;
    assert IdSet(ids) == changed;
    AscendingUnique(out);
  }

  method IndexPlayers(players: seq<PlayerState>) returns (playerIndex: map<nat, nat>)
    ensures playerIndex.Keys == Index(players).Keys
    ensures forall id :: id in playerIndex ==>
      playerIndex[id] < |players| && players[playerIndex[id]] == Record(id, Index(players)[id])
  {
    playerIndex := map[];
    for i := 0 to |players|
      invariant playerIndex.Keys == Index(players[..i]).Keys
      invariant forall id :: id in playerIndex ==>
        playerIndex[id] < i && players[playerIndex[id]] == Record(id, Index(players[..i])[id])
    {
      assert players[..i + 1][..i] == players[..i];
      playerIndex := playerIndex[players[i].id := i];
    }
    assert players[..|players|] == players;
  }

  method CollectChangedPlayers(players: seq<PlayerState>, changed: set<nat>) returns (out: seq<PlayerState>)
    requires changed != {} ==> players != []
    ensures out == CollectedPlayers(players, changed)
  {
    hide Index, AscendingIds;
    var playerIndex := IndexPlayers(players);
    var ids := SortedIds(changed);
    out := [];
    for k := 0 to |ids|
      invariant |out| == k && (k > 0 ==> players != [])
      invariant forall j :: 0 <= j < k ==> out[j] == RecordFor(players, ids[j])
    {
      assert ids[k] in ids;
      var idx := if ids[k] in playerIndex then playerIndex[ids[k]] else 0;
      out := out + [players[idx]];
    }
  }

  lemma MergedNext(table: map<nat, PlayerBody>, players: seq<PlayerState>, i: nat, extra: set<nat>)
    requires i < |players|
    ensures table + Restricted(Index(players[..i + 1]), extra) ==
      var before := table + Restricted(Index(players[..i]), extra);
      if players[i].id in extra then before[players[i].id := players[i].body] else before
  {
    assert players[..i + 1] == players[..i] + [players[i]];
    IndexAppend(players[..i], players[i]);
    hide Index;
  }

  lemma NothingMerged(table: map<nat, PlayerBody>, extra: set<nat>)
    ensures table + Restricted(Index([]), extra) == table
  {
  }

  method MergeChangedPlayers(players: seq<PlayerState>, baseline: seq<PlayerState>, extra: set<nat>)
    returns (out: seq<PlayerState>)
    ensures out == MergedPlayers(players, baseline, extra)
  {
    hide Listing, Restricted;
    if extra == {} {
      return baseline;
    }
    var byID: map<nat, PlayerBody> := map[];
    for i := 0 to |baseline|
      invariant byID == Index(baseline[..i])
    {
      assert baseline[..i + 1][..i] == baseline[..i];
      byID := byID[baseline[i].id := baseline[i].body];
    }
    assert baseline[..|baseline|] == baseline;
    NothingMerged(byID, extra);
    for i := 0 to |players|
      invariant byID == Index(baseline) + Restricted(Index(players[..i]), extra)
    {
      MergedNext(Index(baseline), players, i, extra);
      if players[i].id in extra {
        byID := byID[players[i].id := players[i].body];
      }
    }
    assert players[..|players|] == players;
    out := ListTable(byID);
  }

  method MergeChangedEntities(first: seq<EntityState>, second: seq<EntityState>) returns (out: seq<EntityState>)
    ensures out == Listing(Index(first) + Index(second))
  {
    if |first| == 0 && |second| == 0 {
      return [];
    }
    var byID: map<nat, EntityBody> := map[];
    for i := 0 to |first|
      invariant byID == Index(first[..i])
    {
      assert first[..i + 1][..i] == first[..i];
      byID := byID[first[i].id := first[i].body];
    }
    assert first[..|first|] == first;
    for i := 0 to |second|
      invariant byID == Index(first) + Index(second[..i])
    {
      assert second[..i + 1][..i] == second[..i];
      byID := byID[second[i].id := second[i].body];
    }
    assert second[..|second|] == second;
    out := ListTable(byID);
  }

  class MatchSession {
    var tickId: nat
    var gameState: GameState
    var snapshotHistory: map<nat, Snapshot>

    // StartMatch: tick 0, whose history entry is the full snapshot.
    constructor (initial: GameState, acks: seq<PlayerAck>)
      ensures tickId == 0 && gameState == initial.(tick := 0)
      ensures snapshotHistory == map[0 := Full(0, Some(gameState), acks)]
    {
      tickId := 0;
      gameState := initial.(tick := 0);
      snapshotHistory := map[0 := Full(0, Some(initial.(tick := 0)), acks)];
    }

    method StoreSnapshot(snapshot: Snapshot)
      modifies this`snapshotHistory
      ensures snapshotHistory == Stored(old(snapshotHistory), snapshot)
    {
      snapshotHistory := snapshotHistory[snapshot.tick := snapshot];
      if snapshot.tick <= HISTORY_LIMIT { return; }
      var cutoff := snapshot.tick - HISTORY_LIMIT;
      ghost var added := snapshotHistory;
      var pending := snapshotHistory.Keys;
      PrunedEnds(added, cutoff);
      hide Pruned;
      while pending != {}
        invariant pending <= added.Keys
        invariant snapshotHistory == Pruned(added, pending, cutoff)
        decreases |pending|
      {
        var tick :| tick in pending;
        PrunedNext(added, pending, tick, cutoff);
        if tick < cutoff {
          snapshotHistory := snapshotHistory - {tick};
        }
        pending := pending - {tick};
      }
    }

    method SnapshotsSince(afterTick: nat) returns (out: seq<Snapshot>)
      ensures out == Since(snapshotHistory, afterTick)
    {
      var ticks := SortedIds(set tick | tick in snapshotHistory && tick > afterTick);
      out := [];
      for i := 0 to |ticks|
        invariant |out| == i
        invariant forall j :: 0 <= j < i ==> ticks[j] in snapshotHistory && out[j] == snapshotHistory[ticks[j]]
      {
        assert ticks[i] in ticks;
        out := out + [snapshotHistory[ticks[i]]];
      }
    }

    method RunTick(w: TickWork)
      requires w.playerMarks != {} ==> w.afterInputs.players != []
      requires AscendingById(w.afterInputs.entities)
      requires AscendingById(w.afterInputs.world.doors) && AscendingById(w.afterInputs.world.cells)
      modifies this
      ensures tickId == old(tickId) + 1
      ensures gameState == Final(w)
      ensures snapshotHistory == Stored(old(snapshotHistory),
          Delta(tickId, tickId - 1, Some(DeltaOf(old(gameState), w)), w.acks))
    {
      hide Listing, Index, Collected, CollectedPlayers, AscendingIds, MergedPlayers, Stored, Restricted;
      tickId := tickId + 1;
      var before := gameState;
      gameState := w.afterInputs;
      var inputs := CollectMutations(w);
      gameState := w.afterPhase;
      if w.outcome.Some? {
        gameState := gameState.(status := GameOver, gameOver := w.outcome);
      }
      var players := MergeChangedPlayers(gameState.players, inputs.changedPlayers, w.phasePlayers);
      var entities := MergeChangedEntities(inputs.changedEntities, w.nightEntities);
      var delta := inputs.(changedPlayers := players, changedEntities := entities);
      delta := ScalarChanges(delta, before, w.afterInputs, gameState, w.transitions);
      assert delta == DeltaOf(before, w);
      StoreSnapshot(Delta(tickId, tickId - 1, Some(delta), w.acks));
    }
  }

  // What the input pass hands over: the marked records as they stand after the inputs.
  ghost function Mutations(w: TickWork): GameDelta {
    GameDelta(
      CollectedPlayers(w.afterInputs.players, w.playerMarks), [],
      Collected(w.afterInputs.entities, w.entityMarks), AscendingIds(w.removedEntities),
      Collected(w.afterInputs.world.doors, w.doorMarks),
      Collected(w.afterInputs.world.cells, w.cellMarks), [],
      None, None, None, None, None, None, None)
  }

  method CollectMutations(w: TickWork) returns (slices: GameDelta)
    requires w.playerMarks != {} ==> w.afterInputs.players != []
    requires AscendingById(w.afterInputs.entities)
    requires AscendingById(w.afterInputs.world.doors) && AscendingById(w.afterInputs.world.cells)
    ensures slices == Mutations(w)
  {
    var players := CollectChangedPlayers(w.afterInputs.players, w.playerMarks);
    var doors := CollectChanged(w.afterInputs.world.doors, w.doorMarks);
    var cells := CollectChanged(w.afterInputs.world.cells, w.cellMarks);
    var entities := CollectChanged(w.afterInputs.entities, w.entityMarks);
    var removed := SortedIds(w.removedEntities);
    slices := GameDelta(players, [], entities, removed, doors, cells, [], None, None, None, None, None, None, None);
  }

  // The optional fields of a delta: `before` is the state the tick found, `mid` the state the
  // inputs left, `after` the state the tick leaves.
  method ScalarChanges(slices: GameDelta, before: GameState, mid: GameState, after: GameState, transitions: nat)
    returns (delta: GameDelta)
    ensures delta == slices.(
        phase := if transitions > 0 then Some(after.phase) else slices.phase,
        status := if after.status != mid.status then Some(after.status) else slices.status,
        cycleCount := if after.cycleCount != before.cycleCount then Some(after.cycleCount) else slices.cycleCount,
        powerOn := if after.world.powerOn != before.world.powerOn then Some(after.world.powerOn) else slices.powerOn,
        alarm := if after.world.alarm != before.world.alarm then Some(after.world.alarm) else slices.alarm,
        blackMarketRoom := if after.world.blackMarketRoom != before.world.blackMarketRoom
          then Some(after.world.blackMarketRoom) else slices.blackMarketRoom,
        gameOver := if mid.gameOver.None? && after.gameOver.Some? then after.gameOver else slices.gameOver)
  {
    delta := slices;
    if transitions > 0 { delta := delta.(phase := Some(after.phase)); }
    if after.cycleCount != before.cycleCount { delta := delta.(cycleCount := Some(after.cycleCount)); }
    if after.world.powerOn != before.world.powerOn { delta := delta.(powerOn := Some(after.world.powerOn)); }
    if after.world.alarm != before.world.alarm { delta := delta.(alarm := Some(after.world.alarm)); }
    if after.world.blackMarketRoom != before.world.blackMarketRoom {
      delta := delta.(blackMarketRoom := Some(after.world.blackMarketRoom));
    }
    if after.status != mid.status { delta := delta.(status := Some(after.status)); }
    if mid.gameOver.None? && after.gameOver.Some? { delta := delta.(gameOver := after.gameOver); }
  }

  // ---- when the marks suffice ----

  // The helpers never add or drop players, doors, cells or zones while a match runs, never touch
  // the identity of the match, and keep every slice ordered.
  ghost predicate WellFormed(before: GameState, w: TickWork) {
    var after := Final(w);
    && Ordered(before) && Ordered(w.afterInputs) && Ordered(after)
    && Index(before.players).Keys == Index(w.afterInputs.players).Keys == Index(after.players).Keys
    && Index(before.world.doors).Keys == Index(w.afterInputs.world.doors).Keys == Index(after.world.doors).Keys
    && Index(before.world.cells).Keys == Index(w.afterInputs.world.cells).Keys == Index(after.world.cells).Keys
    && after.matchId == before.matchId
    && after.world.zones == before.world.zones
    && after.tick == before.tick + 1
  }

  ghost predicate RecordsCovered<T>(prev: map<nat, T>, mid: map<nat, T>, next: map<nat, T>, marks: set<nat>,
      late: set<nat>)
    requires prev.Keys == mid.Keys == next.Keys
  {
    forall id :: id in next ==>
      && (prev[id] != next[id] ==> id in marks || id in late)
      && (id in marks && id !in late ==> mid[id] == next[id])
  }

  ghost function SentEntities(w: TickWork): map<nat, EntityBody> {
    Restricted(Index(w.afterInputs.entities), w.entityMarks) + Index(w.nightEntities)
  }

  ghost predicate EntityTablesCovered<T>(prev: map<nat, T>, sent: map<nat, T>, gone: set<nat>, next: map<nat, T>) {
    && (forall id :: id in next ==>
      && id !in gone
      && (id in sent ==> sent[id] == next[id])
      && (id !in sent ==> id in prev && prev[id] == next[id]))
    && (forall id :: (id in prev || id in sent) && id !in next ==> id in gone)
  }

  ghost predicate EntitiesCovered(before: GameState, w: TickWork) {
    EntityTablesCovered(Index(before.entities), SentEntities(w), w.removedEntities, Index(Final(w).entities))
  }

  ghost function SentPlayers(w: TickWork): set<nat> { SentMarks(w.afterInputs.players, w.playerMarks) }

  // Every difference the tick made is marked, and nothing marked early changed again unmarked.
  ghost predicate Covered(before: GameState, w: TickWork)
    requires WellFormed(before, w)
  {
    var after := Final(w);
    && RecordsCovered(Index(before.players), Index(w.afterInputs.players),
        Index(after.players), SentPlayers(w), w.phasePlayers)
    && RecordsCovered(Index(before.world.doors), Index(w.afterInputs.world.doors),
        Index(after.world.doors), w.doorMarks, {})
    && RecordsCovered(Index(before.world.cells), Index(w.afterInputs.world.cells),
        Index(after.world.cells), w.cellMarks, {})
    && EntitiesCovered(before, w)
    && (after.phase != before.phase ==> w.transitions > 0)
    && (after.status != before.status ==> after.status != w.afterInputs.status)
    && (after.gameOver != before.gameOver ==> w.afterInputs.gameOver.None? && after.gameOver.Some?)
  }

  lemma CollectedTable<T>(list: seq<Record<T>>, marks: set<nat>)
    ensures Index(Collected(list, marks)) == Restricted(Index(list), marks)
  {
    ListingShape(Restricted(Index(list), marks));
  }

  lemma TablesExact<T>(prev: map<nat, T>, mid: map<nat, T>, next: map<nat, T>, marks: set<nat>, late: set<nat>)
    requires prev.Keys == mid.Keys == next.Keys
    ensures prev + (Restricted(mid, marks) + Restricted(next, late)) == next
      <==> RecordsCovered(prev, mid, next, marks, late)
  {
    var sum := prev + (Restricted(mid, marks) + Restricted(next, late));
    assert sum.Keys == next.Keys;
    if sum == next {
      assert forall id :: id in next ==> sum[id] == next[id];
    }
  }

  lemma NoneLate<T>(table: map<nat, T>, late: map<nat, T>)
    ensures table + Restricted(late, {}) == table
  {
  }

  lemma MapSliceExact<T>(prev: seq<Record<T>>, mid: seq<Record<T>>, next: seq<Record<T>>, marks: set<nat>)
    requires AscendingById(prev) && AscendingById(next)
    requires Index(prev).Keys == Index(mid).Keys == Index(next).Keys
    ensures Upserted(prev, Collected(mid, marks)) == next
      <==> RecordsCovered(Index(prev), Index(mid), Index(next), marks, {})
  {
    hide *;
    CollectedTable(mid, marks);
    UpsertedTable(prev, Collected(mid, marks));
    SameTableSameList(Upserted(prev, Collected(mid, marks)), next);
    NoneLate(Restricted(Index(mid), marks), Index(next));
    TablesExact(Index(prev), Index(mid), Index(next), marks, {});
  }

  // A list of records a table holds has as its own table that part of it.
  lemma PartOfTable<T>(list: seq<Record<T>>, table: map<nat, T>, ids: set<nat>)
    requires forall i :: 0 <= i < |list| ==>
      list[i].id in ids && list[i].id in table && table[list[i].id] == list[i].body
    requires forall id :: id in ids && id in table ==> exists i :: 0 <= i < |list| && list[i].id == id
    ensures Index(list) == Restricted(table, ids)
  {
    forall id ensures id in Index(list) <==> id in ids && id in table { IndexMember(list, id); }
    forall id | id in Index(list) ensures Index(list)[id] == table[id] { IndexMember(list, id); }
  }

  // Marks of unknown players send the first player's record, and nothing else goes astray.
  lemma CollectedPlayersTable(players: seq<PlayerState>, marks: set<nat>)
    requires AscendingById(players)
    ensures Index(CollectedPlayers(players, marks)) == Restricted(Index(players), SentMarks(players, marks))
  {
    var ids, list, table := AscendingIds(marks), CollectedPlayers(players, marks), Index(players);
    if players != [] {
      IndexAt(players);
      forall i | 0 <= i < |list|
        ensures list[i].id in SentMarks(players, marks) && list[i].id in table && table[list[i].id] == list[i].body
      {
        assert ids[i] in ids;
      }
      forall id | id in SentMarks(players, marks) && id in table
        ensures exists i :: 0 <= i < |list| && list[i].id == id
      {
        SenderOf(players, marks, id);
      }
      PartOfTable(list, table, SentMarks(players, marks));
    }
  }

  lemma SenderOf(players: seq<PlayerState>, marks: set<nat>, id: nat)
    requires players != [] && id in SentMarks(players, marks) && id in Index(players)
    ensures exists i :: 0 <= i < |CollectedPlayers(players, marks)| && CollectedPlayers(players, marks)[i].id == id
  {
    var ids, list := AscendingIds(marks), CollectedPlayers(players, marks);
    var mark: nat := id;
    if id !in marks {
      mark :| mark in marks && mark !in Index(players);
    }
    assert mark in ids;
    var i :| 0 <= i < |ids| && ids[i] == mark;
    assert list[i].id == id;
  }

  lemma ChangedPlayersTable(before: GameState, w: TickWork)
    requires AscendingById(w.afterInputs.players)
    ensures Index(DeltaOf(before, w).changedPlayers)
         == Restricted(Index(w.afterInputs.players), SentPlayers(w))
           + Restricted(Index(Final(w).players), w.phasePlayers)
  {
    CollectedPlayersTable(w.afterInputs.players, w.playerMarks);
    var late := Restricted(Index(Final(w).players), w.phasePlayers);
    if w.phasePlayers == {} {
      assert late == map[];
    } else {
      ListingShape(Restricted(Index(w.afterInputs.players), SentPlayers(w)) + late);
    }
  }

  lemma SliceExact<T>(prev: seq<Record<T>>, changed: seq<Record<T>>, mid: map<nat, T>, next: seq<Record<T>>,
      marks: set<nat>, late: set<nat>)
    requires AscendingById(prev) && AscendingById(next) && Index(prev).Keys == mid.Keys == Index(next).Keys
    requires Index(changed) == Restricted(mid, marks) + Restricted(Index(next), late)
    ensures Patched(prev, changed, []) == next <==> RecordsCovered(Index(prev), mid, Index(next), marks, late)
  {
    hide *;
    PatchExact(prev, changed, [], next);
    var sum := Index(prev) + Index(changed);
    NothingGone(sum);
    TablesExact(Index(prev), mid, Index(next), marks, late);
  }

  lemma NothingGone<T>(table: map<nat, T>)
    ensures table - IdSet([]) == table
  {
  }

  lemma PlayerSliceExact(before: GameState, w: TickWork)
    requires WellFormed(before, w)
    ensures Patched(before.players, DeltaOf(before, w).changedPlayers, []) == Final(w).players
      <==> RecordsCovered(Index(before.players), Index(w.afterInputs.players), Index(Final(w).players),
                 SentPlayers(w), w.phasePlayers)
  {
    ChangedPlayersTable(before, w);
    hide DeltaOf, Patched, Index, SentMarks, Restricted, RecordsCovered;
    SliceExact(before.players, DeltaOf(before, w).changedPlayers, Index(w.afterInputs.players), Final(w).players,
      SentPlayers(w), w.phasePlayers);
  }

  lemma EntityTablesExact<T>(prev: map<nat, T>, sent: map<nat, T>, gone: set<nat>, next: map<nat, T>)
    ensures (prev + sent) - gone == next <==> EntityTablesCovered(prev, sent, gone, next)
  {
    var sum := (prev + sent) - gone;
    if sum == next {
      assert forall id :: id in next ==> id in sum && sum[id] == next[id];
      assert forall id :: id in prev + sent && id !in gone ==> id in sum;
    }
    if EntityTablesCovered(prev, sent, gone, next) {
      assert forall id :: id in next <==> id in sum;
      assert sum == next;
    }
  }

  lemma EntitySliceExact(before: GameState, w: TickWork)
    requires WellFormed(before, w)
    ensures Patched(before.entities, DeltaOf(before, w).changedEntities, DeltaOf(before, w).removedEntities)
         == Final(w).entities
      <==> EntitiesCovered(before, w)
  {
    var d := DeltaOf(before, w);
    CollectedTable(w.afterInputs.entities, w.entityMarks);
    ListingShape(SentEntities(w));
    assert IdSet(d.removedEntities) == w.removedEntities;
    PatchExact(before.entities, d.changedEntities, d.removedEntities, Final(w).entities);
    EntityTablesExact(Index(before.entities), SentEntities(w), w.removedEntities, Index(Final(w).entities));
  }

  // Folding a tick's delta into the state before it gives the state after it exactly when the
  // tick's marks cover every difference.
  lemma DeltaExact(before: GameState, w: TickWork)
    requires WellFormed(before, w)
    ensures Folded(before, DeltaOf(before, w)).(tick := before.tick + 1) == Final(w) <==> Covered(before, w)
  {
    var after, d := Final(w), DeltaOf(before, w);
    PlayerSliceExact(before, w);
    EntitySliceExact(before, w);
    MapSliceExact(before.world.doors, w.afterInputs.world.doors, after.world.doors, w.doorMarks);
    MapSliceExact(before.world.cells, w.afterInputs.world.cells, after.world.cells, w.cellMarks);
  }
}
