# Prison Break: a verified model

Prison Break is a multiplayer game with an authoritative server and a predicting client. This
project models the server's and client's state machines in Dafny and proves what they keep:
across whole runs, for every input, in the code's own terms.

| file | models |
|---|---|
| Records, State, Arithmetic | id-ordered record lists and their tables; the shared match state; division facts |
| MatchLoop, Visibility, SnapshotStore, Replication | a tick and its delta, the projection for a viewer, the client's copy, and the three joined over FIFO channels |
| InputQueue, Replay, InputRuns | the input queue, the replay engine, and their agreement over whole runs |
| Search, GameMap | breadth-first search, tile and room path finding |
| Inventory, Holdings, Carriers, DroppedItems, Trade, Economy | item stacks, the operations on them and their laws, stash and market transactions, whole matches of item moves |
| Sidearms | the day's restoring of the authorities' sidearms and what it reports |
| Phase, Abilities | the day and night clock; cooldowns and daily limits on top of it |
| Assignments, Succession | role assignment and the gang leader's succession |
| Motion | movement with one player to a tile |
| Prediction | the client's pending inputs and frame history |
| Registry, Lobby | the connection indexes; matches, rosters and the player-to-match table |
| Persistence | match history and account statistics |

Objects the program updates in place are classes whose methods are proved against functions on
values; the theorems are lemmas about those functions and about runs of them.

## How to read the model

- Identifiers are naturals ordered by `<`, 0 being the empty one; items and cards are numbered in
  the alphabetical order of their names, which is the order the program sorts them in.
- Hashes, clocks, map contents, payload checks and room permissions are parameters.
- Hidden definitions (`hide`) only keep proofs small; nothing is assumed.

## What the proofs found

- If the dispatcher stalls for more than 257 ticks, the window no longer holds the tick after a
  connection's cursor. Nothing tells the client: it accepts the rest of the window and can stay
  wrong for good (Replication.OverrunDiverges; a whole run in Replication.LateDispatchDiverges).
  257 is the exact bound (Replication.LagExact). A client that is merely slow is disconnected when
  its send queue is full and does not get there.
- At dawn an authority's inventory is cut to three slots, but the player is only reported if a
  sidearm, the bullets or the weapon in hand changed. A warden over capacity and out of bullets
  loses stacks no delta carries (Sidearms.LossUnreported; Sidearms.ReportCoversExactly says when).
- TransferItem does not look at the giver's capacity when a satchel leaves, and it is the only step
  that takes anyone over capacity (Economy.CapacityExact). A giver over capacity who then deposits
  into a full stash loses the item, because the refund goes through the capacity check
  (Economy.OverfullDepositRun).
- Sums of stacks are kept in 16 bits, so totals of 65536 and more can come out too small
  (Inventory.SaturatesExactly). No inventory operation gets near: one add on a normal form totals
  at most 510 (Carriers.AddWithinRange).
- A mark for a player id the state does not hold sends the first player's record
  (MatchLoop.CollectedPlayersTable).
- Binding a connection to the empty match id would leave it listed after it is gone, and nothing
  else breaks the connection indexes (Registry.BindKeepsExactly); the program's two calls
  (internal/server/networking/server.go:556 and 615) bind to a match that is not empty.
- A failed card payment loses cards from a hand of more than three (Trade.FailedPaymentRestores);
  the purchase never gets there, since it counts the cards first (Trade.Match.Purchase).
- The interpolation's empty-window guard and its fallback return are unreachable
  (Prediction.Engine.Interpolate).

## Model

| member | source | states |
|---|---|---|
| Replication.ClientHoldsProjection | internal/server/networking/server.go:1352-1407 | in every reachable state of ticks, joins, dispatches, queue writes, deliveries, departures and disconnections on a full queue, a client holds exactly its viewer's projection of the server state at the client's tick, and a drained channel puts that tick at the cursor |
| Replication.CatchesUp | internal/server/game/manager.go:722-747 | from any consistent link a timely dispatch of everything pending, once delivered, leaves the client with the projection of the current server state |
| Replication.GapFree | internal/server/game/manager.go:722-747 | what is pending after a cursor is every later tick, in order, without gap or repeat, if and only if the cursor is at most 257 ticks old |
| Replication.LagExact | internal/server/networking/server.go:1352-1407 | a bound on how far behind a dispatch may find a connection keeps its client on projections of past states in every run, if and only if the bound is at most 257 ticks |
| Replication.LateDispatchDiverges | internal/server/networking/server.go:1352-1407 | for every larger lag and every queue depth there is a run, from the initial state, that ends with the client having received everything up to the current tick and showing the wrong power state |
| Replication.OverrunDiverges | internal/server/game/manager.go:5188-5202 | for every connection dispatched that late, whose next tick threw the power switch for good and whose burst the send queue takes, the client accepts all it is sent, reaches the current tick, and still shows the wrong power state |
| Replication.WindowStored | internal/server/game/manager.go:5188-5202 | the stored history is always exactly the snapshots of the last 257 ticks, from max(0, now - 256) to now |
| Replication.RunKeepsInv | internal/server/networking/server.go:1352-1407 | no interleaving of steps breaks the window or a link whose dispatches are timely, whatever the other connections do |
| Replication.Connection.Dispatch | internal/server/networking/server.go:1352-1407 | one dispatch queues the projections of all pending snapshots in tick order and moves the cursor to the last, or fills the queue and closes the connection |
| MatchLoop.DeltaExact | internal/server/game/manager.go:836-963 | folding a tick's delta into the state before the tick gives the state after it if and only if the marks cover every difference the tick made |
| MatchLoop.PlayerSliceExact | internal/server/game/manager.go:4988-5022 | the players' part of that equivalence, with the late marks of the phase change overriding the early ones |
| MatchLoop.EntitySliceExact | internal/server/game/manager.go:5108-5173 | the entities' part, with removals and the night's additions |
| MatchLoop.CollectChanged | internal/server/game/manager.go:5024-5106 | for doors, cells and entities the collected list is the id-ordered list of exactly the marked records that exist |
| MatchLoop.CollectChangedPlayers | internal/server/game/manager.go:4963-4986 | one record for each marked id in id order; an id no player has yields the record at position 0 |
| MatchLoop.CollectedPlayersTable | internal/server/game/manager.go:4963-4986 | as a table the collected players are exactly the held records of the marked ids, and the first player's as soon as some mark is unknown |
| MatchLoop.MergeChangedPlayers | internal/server/game/manager.go:4988-5022 | the merged list holds each marked player once, in id order, the current record winning over the collected one |
| Replication.Connection.Send | internal/server/networking/server.go:1281-1314 | a snapshot joins a queue with room; a full queue closes the connection and takes nothing |
| MatchLoop.MatchSession.RunTick | internal/server/game/manager.go:836-963 | a tick advances the counter, leaves the tick's final state and stores the delta from the state before |
| MatchLoop.MatchSession.StoreSnapshot | internal/server/game/manager.go:5188-5202 | storing adds the snapshot and drops exactly the ticks more than 256 behind it |
| MatchLoop.MatchSession.SnapshotsSince | internal/server/game/manager.go:722-747 | the answer is the stored snapshots after a tick, in tick order, and the history is untouched |
| SnapshotStore.Store.ApplySnapshot | internal/client/netclient/snapshot_store.go:25-61 | a full snapshot replaces the copy; a delta is folded in only onto a copy with an earlier tick; anything else is refused and changes nothing |
| SnapshotStore.Store.ApplyDelta | internal/client/netclient/snapshot_store.go:88-126 | every slice of the copy is patched by upsert then removal, every optional field overrides only when sent |
| SnapshotStore.FoldProjected | internal/client/netclient/snapshot_store.go:88-126 | folding a projected delta into a projected copy is projecting the folded state |
| Records.PatchExact | internal/client/netclient/snapshot_store.go:128-322 | upserting and removing rebuilds a target list if and only if, as tables, the changes account for every difference |
| Records.Upsert | internal/client/netclient/snapshot_store.go:128-154 | the upserted list is the id-ordered listing of the old table overridden by the changes; without changes the list is untouched |
| Records.Remove | internal/client/netclient/snapshot_store.go:156-177 | removal keeps exactly the records not named, in their order |
| Visibility.ProjectionReveals | internal/gamecore/roles/visibility.go:30-67 | a viewer tells two records of a player apart if and only if they differ in a public field, or the player is the viewer: no private field leaks |
| Visibility.PatchProjected | internal/gamecore/roles/visibility.go:5-48 | projection commutes with upsert and removal |
| Visibility.ProjectSnapshotForViewer | internal/gamecore/roles/visibility.go:5-28 | the projection of a full or a delta snapshot, record by record, everything but players unchanged |
| InputRuns.ExecutedAsLogged | internal/server/game/input_queue.go:63-92 | over every run of submits and ticks each tick executes exactly the logged commands scheduled for it, in ingress order, and commands wait only for one of the next two ticks |
| InputRuns.AcceptedIsExecuted | internal/server/game/input_queue.go:78-92 | every accepted command is in the batch of its scheduled tick as soon as that tick has run |
| InputRuns.ExecutedOnce | internal/server/game/input_queue.go:54-61 | no (player, client sequence) pair is executed twice in a run, within a batch or across batches |
| InputRuns.SixteenPerBatch | internal/server/game/input_queue.go:63-71 | no tick's batch holds more than sixteen commands of one player |
| InputRuns.ReplayedBatches | internal/gamecore/determinism/replay.go:51-97 | from any shuffling of the recorded log, normalising and re-scheduling gives for every tick that ran exactly the batch the live loop executed, in the same order |
| InputRuns.LivedIsPlayed | internal/server/game/manager.go:836-846 | stepping the state at each tick of a run with the batch that tick takes is playing the executed batches in turn |
| InputRuns.ReplayReproduces | internal/gamecore/determinism/replay.go:18-44 | corollary: with any step function, replaying any shuffling of the log ends in the state the live loop reaches by stepping through its own ticks |
| InputRuns.RunKeeps | internal/server/game/input_queue.go:27-101 | the invariant of every run of submits, ticks and endings by hand: ingress numbers, distinct pairs, at most eight accepted per player and tick, the pending queue and the seen sets agreeing with the log |
| InputQueue.InputSession.SubmitInput | internal/server/game/input_queue.go:27-101 | the outcome in the order of the source's checks, and the whole new queue: an accepted command is scheduled, logged and counted, a refused one leaves at most empty lookup entries |
| InputQueue.InputSession.RunTick | internal/server/game/manager.go:836-846 | a tick takes its own commands sorted and removes them; ending the match clears the queue |
| InputQueue.InputSession.Stop | internal/server/game/manager.go:564-570 | ending a match stops the queue and clears what is scheduled, counted and seen; log and rate windows stay |
| InputQueue.InputSession.PruneRateWindows | internal/server/game/input_queue.go:191-202 | pruning drops exactly the rate windows more than three ticks old, never the current one |
| InputQueue.ComputeScheduledTick | internal/server/game/input_queue.go:167-189 | a command is scheduled one or two ticks ahead, where it asked if that is one of the two, and refused exactly when late and not continuous |
| InputQueue.SortRestores | internal/server/game/input_queue.go:204-224 | sorting any shuffling of commands with distinct ingress numbers restores ingress order |
| InputQueue.StableSortedShape | internal/gamecore/determinism/replay.go:99-119 | the sort is a permutation into ingress order |
| Replay.NormalizeInputLog | internal/gamecore/determinism/replay.go:51-76 | the normalised log is the sorted one with only the first command of every (player, client sequence) pair |
| Replay.ScheduleByTick | internal/gamecore/determinism/replay.go:78-97 | under every tick exactly the commands whose target, raised to the start, is that tick and within the end, in log order |
| Replay.Run | internal/gamecore/determinism/replay.go:18-44 | the state of playing each tick from start to end once with its scheduled batch |
| Replay.DedupedDistinct | internal/gamecore/determinism/replay.go:60-73 | deduplication loses nothing of a log without repeated pairs |
| GameMap.FindPath | internal/gamecore/map/layout.go:330-401 | on any grid: no path exactly when the end is unreachable over walkable neighbouring tiles, otherwise a walk of minimal length between the two points |
| GameMap.FindRoomPath | internal/gamecore/map/layout.go:261-308 | on any room graph: a path exactly when both rooms exist and one is reachable from the other, and then a shortest one |
| GameMap.IndexRoundTrip | internal/gamecore/map/layout.go:471-483 | turning a tile number into coordinates and back gives the number |
| GameMap.Layout.IndexOf | internal/gamecore/map/layout.go:471-476 | a point has a tile number exactly when it is in bounds, a valid one, from which the point is recovered |
| GameMap.TilesReached | internal/gamecore/map/layout.go:390-400 | a shortest walk over tile numbers is a shortest walk over coordinates |
| Search.FoundShortest | internal/gamecore/map/layout.go:356-388 | when the search first meets its goal no walk to it is shorter than the tree's |
| Search.Exhausted | internal/gamecore/map/layout.go:356-392 | an emptied queue means the goal cannot be reached |
| Search.Discovered | internal/gamecore/map/layout.go:378-386 | adding a newly met node keeps the parent tree, the two-layer queue and the explored set |
| Search.Backtrack | internal/gamecore/map/layout.go:394-400 | following parents back from the goal and reversing gives a shortest walk |
| Search.Reverse | internal/gamecore/map/layout.go:485-495 | the reversal in place puts every element at its mirror position |
| Inventory.NormalizeInventory | internal/gamecore/items/inventory.go:379-410 | the normal form: per-item 16-bit sums of known stacks, zero sums dropped, the rest capped at 255, listed in item order |
| Inventory.CanonicalFixed | internal/gamecore/items/inventory.go:379-410 | normal forms are sorted, distinct, known and positive; such inventories are their own normal form, so normalising is idempotent |
| Inventory.NormalizedShuffled | internal/gamecore/items/inventory.go:379-410 | the order of the stacks does not matter |
| Inventory.SaturatesExactly | internal/gamecore/items/inventory.go:384-399 | an item's normal quantity is its total capped at 255 if and only if the total fits 16 bits or wraps to at least 255 |
| Carriers.AddWithinRange | internal/gamecore/items/inventory.go:321-354 | adding a stack to a canonical inventory totals at most 510, so the 16-bit sum is exact there |
| Holdings.AddTakeBack | internal/gamecore/items/inventory.go:321-377 | taking what was added, or adding what was taken, restores the holdings |
| Holdings.TransferConserves | internal/gamecore/items/inventory.go:169-198 | a transfer leaves every item's total across the two players as it was |
| Holdings.TakenFits | internal/gamecore/items/inventory.go:356-377 | taking anything but satchels keeps a player within capacity |
| Holdings.SatchelGiverFits | internal/gamecore/items/inventory.go:169-198 | a satchel giver stays within capacity if and only if the remaining stacks fit the remaining satchels |
| Holdings.TakeCanBeUndone | internal/server/game/manager.go:2143-2149 | putting an item back after taking it succeeds if and only if the player was within capacity before |
| Holdings.CraftedExactly | internal/gamecore/items/inventory.go:217-249 | crafting succeeds exactly when every input is held and the product fits, then takes the inputs, adds one product, changes nothing else and ends within capacity |
| Holdings.CraftSpares | internal/gamecore/items/inventory.go:59-100 | no recipe consumes or makes satchels or golden bullets |
| Carriers.AddItem | internal/gamecore/items/inventory.go:132-150 | all or nothing: exactly the amount is added when it fits the quantity range and the capacity, otherwise the inventory is untouched |
| Carriers.RemoveItem | internal/gamecore/items/inventory.go:152-167 | all or nothing: exactly the amount is taken when held, except that a satchel that must stay is refused |
| Carriers.TransferItem | internal/gamecore/items/inventory.go:169-198 | both sides change by exactly the amount or neither changes; the giver's capacity is not looked at |
| Carriers.Craft | internal/gamecore/items/inventory.go:217-249 | the loop over the recipe's inputs refines the simultaneous payment; on any failure the inventory is untouched |
| Carriers.HasItem | internal/gamecore/items/inventory.go:116-130 | whether a known item is held in the amount asked for, after normalising |
| Carriers.AddToInventory | internal/gamecore/items/inventory.go:321-354 | on a canonical inventory the new list is the canonical one of the changed holdings |
| Carriers.RemoveFromInventory | internal/gamecore/items/inventory.go:356-377 | on a canonical inventory the new list is the canonical one of the reduced holdings |
| Carriers.CountsOf | internal/gamecore/items/inventory.go:432-442 | the stacks and the limit the code counts are those of the holdings |
| DroppedItems.DropRoundTrip | internal/gamecore/items/inventory.go:266-319 | whatever order the tags end up in, parsing what a drop built gives back the item and the quantity, zero standing for one |
| DroppedItems.ParseDroppedItem | internal/gamecore/items/inventory.go:284-319 | the scan accepts exactly the lists whose item tags are known, whose quantities are 1 to 255, and that name an item |
| Trade.DepositInStash | internal/server/game/manager.go:2142-2153 | a deposit moves exactly the amount, or leaves the stash and, but for the case below, the player's holdings |
| Trade.WithdrawFromStash | internal/server/game/manager.go:2155-2166 | a withdrawal moves exactly the amount or changes nothing on either side |
| Trade.RefusedDepositKeeps | internal/server/game/manager.go:2147-2150 | a deposit the stash refuses leaves the player's holdings if and only if the player was within capacity |
| Trade.Match.Purchase | internal/server/game/manager.go:2815-2862 | either the goods arrive and exactly the price in money cards is paid, or nothing changes; the branch that takes the goods back cannot be reached |
| Trade.Match.ContainsGoldenBullet | internal/server/game/manager.go:2864-2884 | found exactly when some player holds one or one lies dropped |
| Trade.PaymentExact | internal/server/game/manager.go:2900-2920 | a payment takes the price in its own card and no other card |
| Trade.ConsumeCards | internal/server/game/manager.go:2900-2920 | succeeds exactly when enough cards are held, then removes that many; on failure what was removed is put back one by one |
| Trade.FailedPaymentRestores | internal/server/game/manager.go:2909-2916 | a failed payment restores the whole hand if and only if it was within the limit of three cards or had none of the card |
| Trade.AddCard | internal/gamecore/cards/framework.go:73-86 | a known card joins a hand of fewer than three, kept sorted |
| Trade.RemoveCard | internal/gamecore/cards/framework.go:88-102 | the first such card goes, the others keep their order |
| Economy.OneGoldenBullet | internal/server/game/manager.go:2841-2861 | over every whole match the golden bullets in inventories, stashes and drops total at most one, and at most one is ever bought |
| Economy.MovesConserve | internal/server/game/manager.go:2141-2167 | transfers, drops, pickups and stash moves conserve every item in the match, but for a deposit a full stash refuses to an overfull player |
| Economy.NothingFromNowhere | internal/server/game/manager.go:1632-1663 | no step adds more of an item to the match than it buys, crafts or receives |
| Economy.StepKeepsGolden | internal/server/game/manager.go:4922-4961 | every step keeps the bullets in the match within those bought, and those bought within one sale |
| Economy.OverfullDepositRun | internal/server/game/manager.go:2142-2153 | a two-step run from a match in which everyone is within capacity: a satchel is transferred, then a full stash refuses its giver's deposit, and the item is gone from the match |
| Economy.StepFits | internal/gamecore/items/inventory.go:169-198 | from a match in which everyone is within capacity, a step leaves it so if and only if it is not a transfer of satchels the giver's other stacks still need |
| Economy.CapacityExact | internal/gamecore/items/inventory.go:169-198 | over a whole run every player and stash stays within capacity if and only if no step is such a transfer |
| Holdings.RefittedAtMost | internal/server/game/manager.go:1182-1202 | refitting an inventory to the slots never makes items |
| Sidearms.RestoreSidearms | internal/server/game/manager.go:2599-2637 | every player is restored as specified and the ids of exactly those reported are returned in list order |
| Sidearms.RefitInventory | internal/server/game/manager.go:1182-1202 | the inventory becomes what adding its stacks one by one to three empty slots keeps |
| Sidearms.EvictOverflow | internal/server/game/manager.go:2639-2659 | the first stack in item order that may go goes, bullets last; nothing else changes |
| Sidearms.SyncBullets | internal/server/game/manager.go:1236-1260 | the bullet stack becomes the capped bullet count if it fits, and a change is reported as the source does |
| Sidearms.Reequip | internal/server/game/manager.go:1204-1234 | the weapon in hand stays if usable, otherwise the first usable one in the order pistol, rifle, baton, shiv |
| Sidearms.PistolComesBack | internal/server/game/manager.go:2616-2624 | a player within three slots always ends with a pistol |
| Sidearms.EvictionMakesRoom | internal/server/game/manager.go:2639-2659 | without room for a pistol some stack can be evicted, and whichever is evicted makes room |
| Sidearms.RefitExact | internal/server/game/manager.go:1182-1202 | a refit that keeps the pistol keeps everything if and only if everything fitted three slots |
| Sidearms.RestoreCoveredExactly | internal/server/game/manager.go:2599-2637 | one player's restore is reported or changes nothing, if and only if that player is no authority, has something to report, or had three slots and fitted them |
| Sidearms.ReportCoversExactly | internal/server/game/manager.go:2599-2637 | the returned ids cover every change if and only if every authority with nothing to report had three slots and fitted them |
| Sidearms.LossUnreported | internal/server/game/manager.go:2599-2637 | a warden without ammunition and with a fourth stack loses that stack and is not reported |
| Phase.Game.Advance | internal/gamecore/phase/manager.go:82-127 | the loop ends past the current tick, in the state and with the transitions of turning the clock as often as needed |
| Phase.ClockAt | internal/gamecore/phase/manager.go:69-127 | from the initial state tick t is day exactly when (t - start) mod (day + night) is less than the day, and the cycles counted are the whole periods elapsed, up to the maximum |
| Phase.AdvanceInStages | internal/gamecore/phase/manager.go:82-127 | advancing to t1 and then to t2 gives the state and the transitions of advancing straight to t2 |
| Phase.TransitionsChain | internal/gamecore/phase/manager.go:82-127 | the transitions are contiguous, alternate, start where the old phase ends, and end in the new phase |
| Assignments.Assign | internal/gamecore/roles/assignment.go:29-67 | errors exactly on no players and on a repeated id; otherwise one profile for each id in order, depending only on the set of ids |
| Assignments.OrderIrrelevant | internal/gamecore/roles/assignment.go:34-43 | the order of the ids changes neither the verdict nor the assignment |
| Assignments.SelectedIsTemplate | internal/gamecore/roles/assignment.go:45-54 | the profiles handed out are one template for that many players, rearranged |
| Assignments.OneWardenOneLeader | internal/gamecore/roles/assignment.go:99-136 | exactly one warden, and from three players on exactly one gang leader |
| Assignments.TemplatesBalanced | internal/gamecore/roles/assignment.go:182-416 | every template of every size has one warden and, from three players on, one gang leader |
| Assignments.ShufflePermutes | internal/gamecore/roles/assignment.go:148-153 | the shuffle is a permutation |
| Assignments.ShuffleProfiles | internal/gamecore/roles/assignment.go:148-153 | the swaps in the array produce the shuffle the generator's state determines |
| Assignments.DrawUndone | internal/gamecore/roles/assignment.go:166-173 | every draw can be undone, so zero is only reached from zero |
| Assignments.NeverZero | internal/gamecore/roles/assignment.go:155-173 | however seeded and however often drawn from, the generator's state is never zero |
| Assignments.StatesDistinct | internal/gamecore/roles/assignment.go:166-173 | generators that ever meet after equally many draws were seeded alike |
| Succession.OneLeaderAlways | internal/gamecore/roles/succession.go:13-82 | from one leader any sequence of deaths and calls keeps exactly one player in the leader's role and the same players in the gang |
| Succession.LedIfAlive | internal/gamecore/roles/succession.go:22-43 | after a call a living leader exists exactly when some gang member is alive |
| Succession.CallTwice | internal/gamecore/roles/succession.go:41-43 | between deaths a second call changes nothing |
| Succession.VacancyFilled | internal/gamecore/roles/succession.go:49-72 | a call fills a vacancy with one living leader and otherwise changes nothing; nobody enters or leaves the gang |
| Succession.ApplySuccession | internal/gamecore/roles/succession.go:13-82 | the array ends in the succession's result and the ids of exactly the changed players are returned in order |
| Motion.NobodyShares | internal/engine/physics/motion.go:113-173 | any intents and knockbacks, whatever the doors do meanwhile, keep the players on distinct tiles and the occupancy map exact |
| Motion.MotionEndsWell | internal/engine/physics/motion.go:113-227 | a player that moved ends in bounds on a walkable tile, not a closed door's and nobody else's, displaced along each axis by all or nothing |
| Motion.BuiltExact | internal/engine/physics/motion.go:34-44 | for players on distinct tiles the map built from scratch says exactly who stands where |
| Motion.BuildOccupiedTiles | internal/engine/physics/motion.go:34-44 | a tile is occupied exactly when somebody stands on it, by the least id there |
| Motion.ResolveVectorMotion | internal/engine/physics/motion.go:113-173 | the result and the map: the old tile freed, the new one taken |
| Motion.ResolveMoveIntent | internal/engine/physics/motion.go:46-84 | a held player stays and the map is untouched; otherwise the motion of the scaled intent |
| Motion.ApplyKnockback | internal/engine/physics/motion.go:86-111 | the motion of the scaled impulse, and a stun that never gets shorter |
| Prediction.PendingAboveHighest | internal/client/prediction/engine.go:88-132 | after any interleaving of recording and acknowledgements the pending queue is exactly the last `limit` recorded move and aim commands above the highest acknowledgement |
| Prediction.PendingIsLast | internal/client/prediction/engine.go:284-291 | even when acknowledgements run ahead, it is the last `limit` commands no later acknowledgement covers |
| Prediction.Engine.Interpolate | internal/client/prediction/engine.go:221-264 | a moment beyond the history shows its end; any other is bracketed by two neighbours of distinct times, so neither the empty window nor the fallback is reached |
| Prediction.BlendWeight | internal/client/prediction/engine.go:247-260 | the blend's weight is in (0, 1] and is the moment's part of the window |
| Prediction.Engine.InsertFrame | internal/client/prediction/engine.go:200-219 | the history stays in time order and within its limit; only an earliest frame is dropped |
| Prediction.Engine.RecordLocalCommands | internal/client/prediction/engine.go:105-132 | the queue gains the new move and aim commands of the local player and keeps the last `limit` |
| Prediction.Engine.AcceptAuthoritativeSnapshot | internal/client/prediction/engine.go:88-103 | the frame joins the history and exactly the acknowledged commands leave the queue |
| Prediction.DropAckedInputs | internal/gamecore/determinism/reconciliation.go:6-21 | exactly the commands above the acknowledgement remain, in order |
| Persistence.HistoryIsNewest | internal/server/persistence/store.go:176-209 | recording distinct matches leaves exactly the newest of all of them, in order |
| Persistence.RecordedInAnyOrder | internal/server/persistence/store.go:176-209 | the order they are recorded in does not matter |
| Persistence.RecordedTwice | internal/server/persistence/store.go:192-203 | recording a match again changes nothing, even one the cap has cut |
| Persistence.RecordedSound | internal/server/persistence/store.go:391-410 | the history stays strictly ordered by end time and id, without repeated ids, within the cap |
| Persistence.RetainedAreNewest | internal/server/persistence/store.go:402-410 | every retained match is newer than every match cut |
| Persistence.StatsBalanced | internal/server/persistence/store.go:367-388 | survived and died add up to played |
| Persistence.Store.RecordMatch | internal/server/persistence/store.go:176-209 | the new history, and statistics equal to the counts over it for every account; an unfinished match is refused and changes no history |
| Persistence.Store.RecomputeStats | internal/server/persistence/store.go:361-389 | every account's statistics are the counts over the retained history, whoever appears in it has an account, and no account is dropped |
| Persistence.Store.UpsertAccount | internal/server/persistence/store.go:145-174 | observing a player changes that account only and keeps the statistics exact |
| Persistence.Store.constructor | internal/server/persistence/store.go:108-137 | opening sorts and caps what was loaded and recounts |
| Registry.IndexesStayExact | internal/server/networking/server.go:269-347 | any sequence of register, bind to a match and unregister keeps both indexes equal to what the live connections say, with no empty match |
| Registry.BindKeepsExactly | internal/server/networking/server.go:1409-1497 | a bind keeps the indexes exact if and only if the match id is not empty or the connection is unknown |
| Registry.EmptyMatchLeaks | internal/server/networking/server.go:1475-1478 | after a bind to the empty match an unregistered connection stays listed |
| Registry.OneConnectionPerPlayer | internal/server/networking/server.go:1427-1448 | no two live connections are bound to one player |
| Registry.Server.BindConnection | internal/server/networking/server.go:1409-1497 | the whole new registry: the previous holder of the player is unbound, the connection moves to its new match |
| Registry.Server.UnregisterConnection | internal/server/networking/server.go:299-328 | the connection leaves all three maps, a player rebound elsewhere keeping its entry |
| Registry.Server.RegisterConnection | internal/server/networking/server.go:269-297 | a fresh connection under a new id, bound to nothing |
| Lobby.TableStaysExact | internal/server/game/manager.go:303-425 | whatever is created, joined, resumed, started and ended, the table points a player at a match exactly when it is not over and the player is on its roster; rosters stay within the limit and each game state lists its roster in id order |
| Lobby.OneLiveMatch | internal/server/game/manager.go:303-362 | a player is on the roster of at most one match that is not over |
| Lobby.Manager.JoinMatch | internal/server/game/manager.go:303-362 | the source's refusals in their order, or the player joins roster, table and player list |
| Lobby.Manager.ResumePlayer | internal/server/game/manager.go:377-425 | only a rostered player of a match that is not over resumes, under the name given or known |
| Lobby.Manager.EndMatch | internal/server/game/manager.go:543-597 | the match is over and exactly its roster leaves the table |
| Lobby.Manager.SyncPlayers | internal/server/game/manager.go:994-1042 | the player list becomes the roster in id order, keeping the held records |
| Abilities.UsesSpacedAndLimited | internal/server/game/manager.go:3846-3904 | over any run two uses of one ability by one player are at least its cooldown apart and the uses on any one day stay within its limit |
| Abilities.Session.UseAbility | internal/server/game/manager.go:3065-3067 | an ability is used exactly when allowed and effective, and only then registered |
| Abilities.Session.CanUseAtCurrentTick | internal/server/game/manager.go:3846-3881 | allowed exactly when off cooldown and, for a limited ability, in a day with uses left |
| Abilities.Session.RegisterUse | internal/server/game/manager.go:3883-3904 | a use starts the cooldown and counts towards the current day only |
| Abilities.AdvancedLater | internal/gamecore/phase/manager.go:82-127 | catching up never moves the start of the phase back |

## Left out

- Replication.ClientHoldsProjection: assumes that the helpers of a tick mark every record they change and keep players, doors, cells and zones in place; MatchLoop.DeltaExact shows that this is exactly what the delta needs, but of the helpers only the dawn restore of sidearms is modelled, which fails it as Sidearms.ReportCoversExactly says; abilities, cards, combat, escape and NPCs are not modelled.
- Replication.ClientHoldsProjection: joining (bind, full snapshot, cursor) is one step, and EndMatch, the manager's ApplyKnockback, SetPlayerConnected and Close, which write outside the delta stream, are not steps.
- Replication.Connection.Send: the other messages that share the send queue, and a send after the close, are not modelled.
- MatchLoop.MatchSession.RunTick: a tick's helpers are given by what they did; 64-bit tick overflow is not modelled.
- InputQueue.InputSession.SubmitInput: whether the payload parses is a parameter; an entry carries the tick counter in place of the wall clock; the match lookup and trimming of ids are not modelled.
- InputRuns.RunKeeps: ConsumeScheduledInputs (internal/server/game/input_queue.go:103-119), which only the tests call, is not a step.
- Sidearms.RestoreSidearms: takes inventories in their normal form, as every inventory operation leaves them.
- Replay.Run: the random streams are part of the state the step function carries.
- GameMap.FindPath: the layout builder and the tables of the prison map are not modelled; the theorem holds for every grid.
- Motion.MotionEndsWell: coordinates are reals, not 32-bit floats, and scaling a vector to a maximum length is a parameter; the occupancy map is always given, while the program also accepts none.
- Carriers.TransferItem: the giver and the taker are distinct objects or refused by their ids; the limit reported as an unsigned byte for display is not modelled.
- Trade.DepositInStash: the checks on room, cell and owner that precede it are not modelled, nor is the choice of an equipped weapon after it.
- Trade.Match.Purchase: the checks on role, phase and place are one parameter.
- Economy.OneGoldenBullet: works on holdings, so inventories are their normal forms; every player has three slots, as the loadout gives; which item a steal, a bribe or an eviction picks is left open.
- Phase.Game.Advance: the hooks are not called; the program's own hooks write other fields.
- Assignments.Assign: the hash of the match id and player ids is a parameter.
- Succession.ApplySuccession: the hash that picks among the candidates is a parameter.
- Prediction.Engine.Interpolate: which frames are blended and by what weight, not the blending of positions, the smoothing or the replay of pending movement; times are integers.
- Persistence.Store.RecordMatch: takes the built record; counters are naturals, without the 32-bit wrap-around; file reading, writing and schema migration are not modelled.
- Registry.Server.BindConnection: the events, the disconnection of the stale connection and the manager's connected flag are not modelled; unregistering the stale connection is a step of its own.
- Lobby.Manager.StartMatch: roles, cells, loadouts and the loop it starts are not modelled; player ids are taken as trimmed (JoinMatch tests the trimmed id but files the one given); Manager.Close, which empties the table and keeps the rosters, is not a step.
- Lobby.Manager.ResumePlayer: marking the player connected afterwards, a change to one field of one record, is not modelled.
- Abilities.Session.UseAbility: whether an ability takes effect is a parameter; the two-level tables are keyed by pair.
- Night card choices, whose selection loop has no measure that shows it ends.
- Combat, escape routes, win conditions, NPC tasks, black market location, access control: rules over single bodies.
- Websockets, HTTP, tokens, JSON, rendering, user interface, admin and load tools.
