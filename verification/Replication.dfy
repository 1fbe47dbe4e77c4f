// Snapshot replication end to end: the server ticks, a dispatcher walks each connection's
// cursor over the history window, snapshots travel over a FIFO queue, and the client folds
// them in (internal/server/networking/server.go, internal/server/game/manager.go,
// internal/client/netclient/snapshot_store.go).

module Replication {
  import opened Records
  import opened State
  import opened Visibility
  import opened SnapshotStore
  import opened MatchLoop

  function ProjectAll(snapshots: seq<Snapshot>, viewer: PlayerId): (out: seq<Snapshot>)
    ensures |out| == |snapshots|
    ensures forall i :: 0 <= i < |out| ==> out[i] == Projected(snapshots[i], viewer)
  {
    seq(|snapshots|, i requires 0 <= i < |snapshots| => Projected(snapshots[i], viewer))
  }

  lemma ProjectAllNext(snapshots: seq<Snapshot>, k: nat, viewer: PlayerId)
    requires k < |snapshots|
    ensures ProjectAll(snapshots[..k + 1], viewer)
         == ProjectAll(snapshots[..k], viewer) + [Projected(snapshots[k], viewer)]
  {
  }

  // ---- the sending side ----

  // A bound connection: who watches, the last tick sent, and the queue to the socket.
  class Connection {
    const viewer: PlayerId
    const depth: nat
    var open: bool
    var cursor: nat
    var queue: seq<Snapshot>

    constructor (viewer: PlayerId, depth: nat)
      ensures this.viewer == viewer && this.depth == depth && open && cursor == 0 && queue == []
    {
      this.viewer, this.depth, open, cursor, queue := viewer, depth, true, 0, [];
    }

    // A full queue closes the connection.
    method Send(snapshot: Snapshot) returns (sent: bool)
      requires open
      modifies this`queue, this`open
      ensures open == sent == (|old(queue)| < depth)
      ensures queue == if sent then old(queue) + [snapshot] else old(queue)
    {
      sent := |queue| < depth;
      if sent { queue := queue + [snapshot]; } else { open := false; }
    }

    // One dispatch to a live connection: every pending snapshot in tick order, and the cursor moved
    // to the last one; if the queue fills up first, the connection is closed.
    method Dispatch(session: MatchSession) returns (taken: nat)
      requires open
      requires forall tick :: tick in session.snapshotHistory ==> session.snapshotHistory[tick].tick == tick
      modifies this
      ensures var pending := Since(session.snapshotHistory, old(cursor));
        && taken == (if old(|queue|) + |pending| <= depth then |pending|
                     else if old(|queue|) >= depth then 0 else depth - old(|queue|))
        && queue == old(queue) + ProjectAll(pending[..taken], viewer)
        && open == (taken == |pending|)
        && cursor == if open && taken > 0 then pending[taken - 1].tick else old(cursor)
    {
      hide Since, TicksAfter, ProjectAll;
      var snapshots := session.SnapshotsSince(cursor);
      SinceTicks(session.snapshotHistory, cursor);
      var latest := cursor;
      taken := 0;
      while taken < |snapshots|
        invariant taken <= |snapshots| && open
        invariant taken > 0 ==> |queue| <= depth
        invariant queue == old(queue) + ProjectAll(snapshots[..taken], viewer)
        invariant latest == if taken == 0 then old(cursor) else snapshots[taken - 1].tick
        invariant cursor == old(cursor)
      {
        var snapshot := snapshots[taken];
        assert snapshot.tick > latest;
        var visible := ProjectSnapshotForViewer(snapshot, viewer);
        var sent := Send(visible);
        if !sent { break; }
        ProjectAllNext(snapshots, taken, viewer);
        latest := visible.tick;
        taken := taken + 1;
      }
      if open && latest > cursor { cursor := latest; }
    }
  }

  lemma SinceTicks(history: map<nat, Snapshot>, after: nat)
    requires forall tick :: tick in history ==> history[tick].tick == tick
    ensures forall i :: 0 <= i < |Since(history, after)| ==> Since(history, after)[i].tick > after
    ensures forall i, j :: 0 <= i < j < |Since(history, after)| ==>
      Since(history, after)[i].tick < Since(history, after)[j].tick
  {
    var ticks := TicksAfter(history, after);
    forall i | 0 <= i < |ticks| ensures Since(history, after)[i].tick == ticks[i] > after {
      assert ticks[i] in ticks;
    }
  }

  // ---- the system ----

  // A live connection and its client. The channel holds everything sent and not yet received: what
  // is on the wire, then the last `waiting` snapshots, still in the send queue.
  datatype Link = Link(
    viewer: PlayerId, depth: nat, cursor: nat, channel: seq<Snapshot>, waiting: nat, client: Option<GameState>)

  // past[t] is the server state after tick t and log[t] the snapshot that tick stored; the
  // server itself only keeps `history`.
  datatype World = World(past: seq<GameState>, log: seq<Snapshot>, history: map<nat, Snapshot>, links: map<nat, Link>)

  datatype Step =
    | Tick(work: TickWork)
    | Join(c: nat, viewer: PlayerId, depth: nat, acks: seq<PlayerAck>)
    // `written` snapshots leave the queue for the wire while the dispatch fills it.
    | Dispatch(c: nat, written: nat)
    | Write(c: nat)
    | Deliver(c: nat)
    | Leave(c: nat)

  function Dispatched(link: Link, pending: seq<Snapshot>, written: nat): Link
    requires written <= link.waiting + |pending|
  {
    link.(channel := link.channel + ProjectAll(pending, link.viewer),
          cursor := if pending == [] then link.cursor else pending[|pending| - 1].tick,
          waiting := link.waiting + |pending| - written)
  }

  // Everything pending gets through the queue; if not, the full queue closes the connection.
  predicate Fits(link: Link, pending: seq<Snapshot>, written: nat) {
    link.waiting + |pending| <= link.depth + written && written <= link.waiting + |pending|
  }

  ghost function Delivered(link: Link): Link
    requires link.channel != []
  {
    link.(channel := link.channel[1..], client := Received(link.client, link.channel[0]))
  }

  ghost function TickSnapshot(before: GameState, work: TickWork): Snapshot {
    Delta(before.tick + 1, before.tick, Some(DeltaOf(before, work)), work.acks)
  }

  function Ticked(w: World, state: GameState, snapshot: Snapshot): World {
    World(w.past + [state], w.log + [snapshot], Stored(w.history, snapshot), w.links)
  }

  ghost predicate Initial(w: World) {
    && |w.past| == |w.log| == 1
    && Ordered(w.past[0]) && w.past[0].tick == 0
    && w.log[0].Full? && w.log[0].tick == 0
    && w.history == map[0 := w.log[0]]
    && w.links == map[]
  }

  ghost predicate Next(w: World, step: Step, w': World)
    requires |w.past| == |w.log| > 0
  {
    var now := |w.past| - 1;
    match step
    case Tick(work) =>
      && WellFormed(w.past[now], work) && Covered(w.past[now], work)
      && w' == Ticked(w, Final(work), TickSnapshot(w.past[now], work))
    case Join(c, viewer, depth, acks) =>
      && depth > 0
      && w' == w.(links := w.links[c :=
           Link(viewer, depth, now, [Projected(Full(now, Some(w.past[now]), acks), viewer)], 1, None)])
    case Dispatch(c, written) =>
      && c in w.links
      && var pending := Since(w.history, w.links[c].cursor);
      && w' == w.(links := if Fits(w.links[c], pending, written)
                           then w.links[c := Dispatched(w.links[c], pending, written)] else w.links - {c})
    case Write(c) =>
      && c in w.links && w.links[c].waiting > 0
      && w' == w.(links := w.links[c := w.links[c].(waiting := w.links[c].waiting - 1)])
    case Deliver(c) =>
      && c in w.links && |w.links[c].channel| > w.links[c].waiting
      && w' == w.(links := w.links[c := Delivered(w.links[c])])
    case Leave(c) => w' == w.(links := w.links - {c})
  }

  // A dispatch to connection c finds it at most `lag` ticks behind.
  predicate Timely(w: World, step: Step, c: nat, lag: nat) {
    (step.Dispatch? && step.c == c && c in w.links) ==> |w.past| - 1 <= w.links[c].cursor + lag
  }

  // The last lag at which the window still has the tick after the cursor.
  const WINDOW_LAG: nat := HISTORY_LIMIT + 1

  ghost predicate IsRun(worlds: seq<World>, steps: seq<Step>) {
    && |worlds| == |steps| + 1
    && Initial(worlds[0])
    && (forall i {:trigger steps[i]} :: 0 <= i < |steps| ==>
         |worlds[i].past| == |worlds[i].log| > 0 && Next(worlds[i], steps[i], worlds[i + 1]))
  }

  // ---- the server's window ----

  function Oldest(now: nat): nat { if now <= HISTORY_LIMIT then 0 else now - HISTORY_LIMIT }

  function Window(log: seq<Snapshot>): map<nat, Snapshot>
    requires log != []
  {
    map tick: nat | Oldest(|log| - 1) <= tick < |log| :: log[tick]
  }

  lemma WindowStored(log: seq<Snapshot>, snapshot: Snapshot)
    requires log != [] && snapshot.tick == |log|
    ensures Stored(Window(log), snapshot) == Window(log + [snapshot])
  {
  }

  lemma WindowTicks(log: seq<Snapshot>, cursor: nat, from: nat)
    requires log != [] && cursor < |log| && from <= |log|
    requires from == if cursor + 1 < Oldest(|log| - 1) then Oldest(|log| - 1) else cursor + 1
    ensures TicksAfter(Window(log), cursor) == seq(|log| - from, i => from + i)
  {
    var range := seq(|log| - from, i => from + i);
    var ticks := TicksAfter(Window(log), cursor);
    forall k ensures k in ticks <==> k in range {
      if k in range { var i :| 0 <= i < |range| && range[i] == k; }
      if from <= k < |log| { assert range[k - from] == k; }
    }
    AscendingIdsUnique(ticks, range);
  }

  // A pending list is what lies both after the cursor and inside the window ...
  lemma SinceWindow(log: seq<Snapshot>, cursor: nat)
    requires log != [] && cursor < |log|
    ensures var from := if cursor + 1 < Oldest(|log| - 1) then Oldest(|log| - 1) else cursor + 1;
      Since(Window(log), cursor) == log[from..]
  {
    var from := if cursor + 1 < Oldest(|log| - 1) then Oldest(|log| - 1) else cursor + 1;
    WindowTicks(log, cursor, from);
    hide TicksAfter;
  }

  // ... so it starts right after the cursor exactly when the cursor is at most 257 ticks old.
  lemma GapFree(log: seq<Snapshot>, cursor: nat)
    requires log != [] && cursor < |log|
    ensures Since(Window(log), cursor) == log[cursor + 1..] <==> |log| - 1 <= cursor + HISTORY_LIMIT + 1
  {
    SinceWindow(log, cursor);
  }

  // ---- invariants ----

  ghost predicate TickRecorded(before: GameState, snapshot: Snapshot, after: GameState) {
    && snapshot.Delta? && snapshot.delta.Some? && snapshot.tick == before.tick + 1
    && Folded(before, snapshot.delta.value).(tick := snapshot.tick) == after
    && (snapshot.delta.value.powerOn.Some? ==> before.world.powerOn != after.world.powerOn)
  }

  ghost predicate LogInv(past: seq<GameState>, log: seq<Snapshot>) {
    && |past| == |log| > 0
    && (forall t :: 0 <= t < |past| ==> past[t].tick == t && AscendingById(past[t].players))
    && (forall t :: 0 <= t < |log| ==> log[t].tick == t)
    && (forall t {:trigger log[t]} :: 0 < t < |log| ==> TickRecorded(past[t - 1], log[t], past[t]))
  }

  ghost predicate ServerInv(w: World) {
    && LogInv(w.past, w.log)
    && Ordered(w.past[|w.past| - 1])
    && w.history == Window(w.log)
  }

  // The first tick whose delta is still on its way.
  function Awaited(link: Link): nat {
    if link.client.Some? then link.client.value.tick + 1
    else if link.channel != [] then link.channel[0].tick + 1 else 0
  }

  // A link holds the projection of some past tick, or a full snapshot of it still in flight,
  // and its channel carries every later tick up to the cursor, in order.
  ghost predicate LinkInv(past: seq<GameState>, log: seq<Snapshot>, link: Link) {
    && |past| == |log|
    && Awaited(link) <= link.cursor + 1 <= |past|
    && (link.client.Some? ==>
      && link.client.value == ProjectState(past[Awaited(link) - 1], link.viewer)
      && link.channel == ProjectAll(log[Awaited(link)..link.cursor + 1], link.viewer))
    && (link.client.None? ==>
      && link.channel != [] && link.channel[0].Full?
      && link.channel[0].state == Some(ProjectState(past[Awaited(link) - 1], link.viewer))
      && link.channel[1..] == ProjectAll(log[Awaited(link)..link.cursor + 1], link.viewer))
  }

  lemma LogGrows(past: seq<GameState>, log: seq<Snapshot>, state: GameState, snapshot: Snapshot)
    requires past != []
    ensures LogInv(past, log) && TickRecorded(past[|past| - 1], snapshot, state) && AscendingById(state.players)
      ==> LogInv(past + [state], log + [snapshot])
  {
    hide Folded, AscendingById;
  }

  lemma CoveredTickRecorded(before: GameState, work: TickWork)
    ensures WellFormed(before, work) && Covered(before, work) ==>
      TickRecorded(before, TickSnapshot(before, work), Final(work)) && Ordered(Final(work))
  {
    if WellFormed(before, work) && Covered(before, work) { DeltaExact(before, work); }
  }

  lemma TickGrows(w: World, state: GameState, snapshot: Snapshot)
    requires w.past != []
    ensures ServerInv(w) && Ordered(state) && TickRecorded(w.past[|w.past| - 1], snapshot, state)
      ==> ServerInv(Ticked(w, state, snapshot))
  {
    hide Folded, AscendingById;
    if ServerInv(w) && Ordered(state) && TickRecorded(w.past[|w.past| - 1], snapshot, state) {
      WindowStored(w.log, snapshot);
      LogGrows(w.past, w.log, state, snapshot);
    }
  }

  lemma TickKeepsServer(w: World, work: TickWork)
    requires w.past != []
    ensures var before := w.past[|w.past| - 1];
      ServerInv(w) && WellFormed(before, work) && Covered(before, work)
      ==> ServerInv(Ticked(w, Final(work), TickSnapshot(before, work)))
  {
    var before := w.past[|w.past| - 1];
    CoveredTickRecorded(before, work);
    TickGrows(w, Final(work), TickSnapshot(before, work));
  }

  lemma TickKeepsLink(past: seq<GameState>, log: seq<Snapshot>, link: Link, state: GameState, snapshot: Snapshot)
    requires LinkInv(past, log, link)
    ensures LinkInv(past + [state], log + [snapshot], link)
  {
    assert (log + [snapshot])[Awaited(link)..link.cursor + 1] == log[Awaited(link)..link.cursor + 1];
  }

  lemma ProjectAllConcat(a: seq<Snapshot>, b: seq<Snapshot>, viewer: PlayerId)
    ensures ProjectAll(a + b, viewer) == ProjectAll(a, viewer) + ProjectAll(b, viewer)
  {
  }

  lemma LogExtends(log: seq<Snapshot>, from: nat, cursor: nat, upTo: nat, viewer: PlayerId)
    requires from <= cursor + 1 <= upTo + 1 <= |log|
    ensures ProjectAll(log[from..cursor + 1], viewer) + ProjectAll(log[cursor + 1..upTo + 1], viewer)
         == ProjectAll(log[from..upTo + 1], viewer)
  {
    ProjectAllConcat(log[from..cursor + 1], log[cursor + 1..upTo + 1], viewer);
    assert log[from..cursor + 1] + log[cursor + 1..upTo + 1] == log[from..upTo + 1];
  }

  lemma TailConcat<T>(a: seq<T>, b: seq<T>)
    requires a != []
    ensures (a + b)[1..] == a[1..] + b && (a + b)[0] == a[0]
  {
  }

  lemma ExtendLink(past: seq<GameState>, log: seq<Snapshot>, link: Link, upTo: nat)
    requires LinkInv(past, log, link) && link.cursor <= upTo < |log|
    ensures LinkInv(past, log, link.(
        channel := link.channel + ProjectAll(log[link.cursor + 1..upTo + 1], link.viewer), cursor := upTo))
  {
    hide ProjectState, ProjectAll;
    LogExtends(log, Awaited(link), link.cursor, upTo, link.viewer);
    if link.client.None? {
      TailConcat(link.channel, ProjectAll(log[link.cursor + 1..upTo + 1], link.viewer));
    }
  }

  lemma QueueIrrelevant(past: seq<GameState>, log: seq<Snapshot>, link: Link, waiting: nat)
    requires LinkInv(past, log, link)
    ensures LinkInv(past, log, link.(waiting := waiting))
  {
  }

  lemma DispatchedToEnd(log: seq<Snapshot>, link: Link, written: nat)
    requires link.cursor < |log| && forall t :: 0 <= t < |log| ==> log[t].tick == t
    requires written <= link.waiting + |log| - 1 - link.cursor
    ensures Dispatched(link, log[link.cursor + 1..], written) == link.(
        channel := link.channel + ProjectAll(log[link.cursor + 1..|log|], link.viewer), cursor := |log| - 1,
        waiting := link.waiting + |log| - 1 - link.cursor - written)
  {
    hide ProjectAll;
    assert log[link.cursor + 1..] == log[link.cursor + 1..|log|];
  }

  lemma DispatchKeepsLink(past: seq<GameState>, log: seq<Snapshot>, link: Link, written: nat)
    requires LinkInv(past, log, link) && log != []
    requires forall t :: 0 <= t < |log| ==> log[t].tick == t
    requires |log| - 1 <= link.cursor + WINDOW_LAG
    requires Fits(link, Since(Window(log), link.cursor), written)
    ensures LinkInv(past, log, Dispatched(link, Since(Window(log), link.cursor), written))
  {
    hide Since, Window, ProjectAll, ProjectState, Dispatched, Awaited;
    assert link.cursor < |log|;
    hide LinkInv;
    GapFree(log, link.cursor);
    DispatchedToEnd(log, link, written);
    ExtendLink(past, log, link, |log| - 1);
    var extended := link.(
      channel := link.channel + ProjectAll(log[link.cursor + 1..|log|], link.viewer), cursor := |log| - 1);
    QueueIrrelevant(past, log, extended, link.waiting + |log| - 1 - link.cursor - written);
  }

  lemma DeltaArrives(before: GameState, snapshot: Snapshot, after: GameState, viewer: PlayerId)
    requires TickRecorded(before, snapshot, after) && AscendingById(before.players)
    ensures Received(Some(ProjectState(before, viewer)), Projected(snapshot, viewer))
         == Some(ProjectState(after, viewer))
  {
    FoldProjected(before, snapshot.delta.value, viewer);
  }

  lemma FullKeepsLink(past: seq<GameState>, log: seq<Snapshot>, link: Link)
    requires LinkInv(past, log, link) && link.client.None?
    requires Awaited(link) > 0 ==> past[Awaited(link) - 1].tick == Awaited(link) - 1
    ensures LinkInv(past, log, Delivered(link))
  {
    var after := Delivered(link);
    assert after.client == Some(ProjectState(past[Awaited(link) - 1], link.viewer));
    assert Awaited(after) == Awaited(link);
  }

  lemma DeltaKeepsLink(past: seq<GameState>, log: seq<Snapshot>, link: Link)
    requires LinkInv(past, log, link) && link.client.Some? && link.channel != []
    requires var t := Awaited(link);
      AscendingById(past[t - 1].players) && TickRecorded(past[t - 1], log[t], past[t]) && past[t].tick == t
    ensures LinkInv(past, log, Delivered(link))
  {
    hide Folded, AscendingById;
    var t, after := Awaited(link), Delivered(link);
    assert link.channel[0] == Projected(log[t], link.viewer);
    DeltaArrives(past[t - 1], log[t], past[t], link.viewer);
    assert after.client == Some(ProjectState(past[t], link.viewer));
    assert Awaited(after) == t + 1;
    assert log[t..link.cursor + 1][1..] == log[t + 1..link.cursor + 1];
    assert after.channel == ProjectAll(log[t + 1..link.cursor + 1], link.viewer);
  }

  lemma DeliverKeepsLink(past: seq<GameState>, log: seq<Snapshot>, link: Link)
    requires LogInv(past, log) && LinkInv(past, log, link) && link.channel != []
    ensures LinkInv(past, log, Delivered(link))
  {
    if link.client.Some? {
      var t := Awaited(link);
      assert TickRecorded(past[t - 1], log[t], past[t]);
      DeltaKeepsLink(past, log, link);
    } else {
      FullKeepsLink(past, log, link);
    }
  }

  // ---- safety over whole runs ----

  lemma StepKeepsLink(w: World, step: Step, w': World, c: nat)
    requires ServerInv(w) && Next(w, step, w') && Timely(w, step, c, WINDOW_LAG)
    requires c in w.links ==> LinkInv(w.past, w.log, w.links[c])
    requires c in w'.links
    ensures LinkInv(w'.past, w'.log, w'.links[c])
  {
    hide WellFormed, Covered, TickRecorded;
    match step
    case Tick(work) =>
      TickKeepsLink(w.past, w.log, w.links[c], w'.past[|w.past|], w'.log[|w.log|]);
    case Dispatch(d, written) =>
      if d == c { DispatchKeepsLink(w.past, w.log, w.links[c], written); }
    case Write(d) =>
      if d == c { QueueIrrelevant(w.past, w.log, w.links[c], w'.links[c].waiting); }
    case Deliver(d) =>
      if d == c { DeliverKeepsLink(w.past, w.log, w.links[c]); }
    case Join(d, viewer, depth, acks) =>
      if d == c { assert w.log[|w.log|..|w.log|] == []; }
    case Leave(d) =>
  }

  ghost predicate Inv(w: World, c: nat) {
    ServerInv(w) && (c in w.links ==> LinkInv(w.past, w.log, w.links[c]))
  }

  lemma StepKeepsInv(w: World, step: Step, w': World, c: nat)
    requires |w.past| == |w.log| > 0
    ensures Inv(w, c) && Next(w, step, w') && Timely(w, step, c, WINDOW_LAG) ==> Inv(w', c)
  {
    hide WellFormed, Covered, LogInv, LinkInv, Ordered, Window, Timely;
    if Inv(w, c) && Next(w, step, w') && Timely(w, step, c, WINDOW_LAG) {
      if step.Tick? { TickKeepsServer(w, step.work); }
      if c in w'.links { StepKeepsLink(w, step, w', c); }
    }
  }

  ghost predicate AllTimely(worlds: seq<World>, steps: seq<Step>, c: nat, lag: nat)
    requires |worlds| == |steps| + 1
  {
    forall i {:trigger steps[i]} :: 0 <= i < |steps| ==> Timely(worlds[i], steps[i], c, lag)
  }

  // However ticks, joins, dispatches, deliveries and departures interleave, a connection whose
  // dispatches are timely stays consistent.
  lemma {:induction false} RunKeepsInv(worlds: seq<World>, steps: seq<Step>, c: nat, n: nat)
    requires |worlds| == |steps| + 1 && n <= |steps|
    ensures IsRun(worlds, steps) && AllTimely(worlds, steps, c, WINDOW_LAG) ==> Inv(worlds[n], c)
  {
    if IsRun(worlds, steps) && AllTimely(worlds, steps, c, WINDOW_LAG) {
      if n == 0 {
        InitialInv(worlds[0], c);
      } else {
        RunKeepsInv(worlds, steps, c, n - 1);
        var step := steps[n - 1];
        StepKeepsInv(worlds[n - 1], step, worlds[n], c);
      }
    }
  }

  lemma InitialInv(w: World, c: nat)
    requires Initial(w)
    ensures Inv(w, c)
  {
    assert Window(w.log) == map[0 := w.log[0]];
  }

  // The refinement: in every reachable state, whatever the client holds is exactly its viewer's
  // projection of the server state at the client's tick; once its channel is drained, that tick
  // is the cursor.
  lemma ClientHoldsProjection(worlds: seq<World>, steps: seq<Step>, c: nat)
    requires IsRun(worlds, steps) && AllTimely(worlds, steps, c, WINDOW_LAG)
    requires c in worlds[|steps|].links && worlds[|steps|].links[c].client.Some?
    ensures var w := worlds[|steps|];
      var link := w.links[c];
      && link.client.value.tick < |w.past|
      && link.client.value == ProjectState(w.past[link.client.value.tick], link.viewer)
      && (link.channel == [] ==> link.client.value.tick == link.cursor)
  {
    hide Next, TickRecorded, Ordered;
    RunKeepsInv(worlds, steps, c, |steps|);
    var w := worlds[|steps|];
    var link := w.links[c];
    assert link.channel == ProjectAll(w.log[Awaited(link)..link.cursor + 1], link.viewer);
  }

  // ---- catching up ----

  ghost function ReceivedAll(held: Option<GameState>, snapshots: seq<Snapshot>): Option<GameState>
    decreases |snapshots|
  {
    if snapshots == [] then held else ReceivedAll(Received(held, snapshots[0]), snapshots[1..])
  }

  lemma {:induction false} DrainedLink(past: seq<GameState>, log: seq<Snapshot>, link: Link)
    requires link.cursor < |past|
    ensures LogInv(past, log) && LinkInv(past, log, link) ==>
      ReceivedAll(link.client, link.channel) == Some(ProjectState(past[link.cursor], link.viewer))
    decreases |link.channel|
  {
    if LogInv(past, log) && LinkInv(past, log, link) {
      if link.channel == [] {
        IdleLink(past, log, link);
      } else {
        DeliverKeepsLink(past, log, link);
        DrainedLink(past, log, Delivered(link));
      }
    }
  }

  lemma IdleLink(past: seq<GameState>, log: seq<Snapshot>, link: Link)
    requires LogInv(past, log) && LinkInv(past, log, link) && link.channel == []
    ensures link.client == Some(ProjectState(past[link.cursor], link.viewer))
    ensures link.client.value.tick == link.cursor
  {
    hide Folded, AscendingById;
    assert |log[Awaited(link)..link.cursor + 1]| == 0;
  }

  // From any consistent link, one timely dispatch of everything pending and a drained channel
  // leave the client with the projection of the current server state.
  lemma CatchesUp(w: World, link: Link)
    requires ServerInv(w) && LinkInv(w.past, w.log, link)
    requires |w.past| - 1 <= link.cursor + HISTORY_LIMIT + 1
    ensures ReceivedAll(link.client, link.channel + ProjectAll(Since(w.history, link.cursor), link.viewer))
         == Some(ProjectState(w.past[|w.past| - 1], link.viewer))
  {
    hide Folded, AscendingById, ProjectState, Received, Since, Window, ProjectAll;
    var pending := Since(w.history, link.cursor);
    var now := |w.past| - 1;
    assert pending == w.log[link.cursor + 1..now + 1] by { GapFree(w.log, link.cursor); }
    var after := link.(
      channel := link.channel + ProjectAll(w.log[link.cursor + 1..now + 1], link.viewer), cursor := now);
    ExtendLink(w.past, w.log, link, now);
    assert LinkInv(w.past, w.log, after);
    assert after.channel == link.channel + ProjectAll(pending, link.viewer);
    DrainedLink(w.past, w.log, after);
    assert ReceivedAll(after.client, after.channel) == Some(ProjectState(w.past[now], link.viewer));
  }

  // ---- a dispatch that is not timely ----

  lemma {:induction false} QuietPower(past: seq<GameState>, log: seq<Snapshot>, held: GameState, from: nat,
      viewer: PlayerId)
    requires LogInv(past, log) && 0 < from <= |past| && held.tick < from
    requires forall t :: from - 1 <= t < |past| ==> past[t].world.powerOn == past[from - 1].world.powerOn
    ensures var last := ReceivedAll(Some(held), ProjectAll(log[from..], viewer));
      && last.Some? && last.value.world.powerOn == held.world.powerOn
      && last.value.tick == if from == |past| then held.tick else |past| - 1
    decreases |past| - from
  {
    var snapshots := ProjectAll(log[from..], viewer);
    if from < |past| {
      assert TickRecorded(past[from - 1], log[from], past[from]);
      assert snapshots[0] == Projected(log[from], viewer);
      assert snapshots[1..] == ProjectAll(log[from + 1..], viewer);
      var next := Received(Some(held), snapshots[0]);
      assert next.value.world.powerOn == held.world.powerOn && next.value.tick == from;
      QuietPower(past, log, next.value, from + 1, viewer);
    } else {
      assert snapshots == [];
    }
  }

  // Past 257 ticks what is pending is the whole window.
  lemma WindowBurst(w: World, cursor: nat)
    requires ServerInv(w) && |w.past| - 1 > cursor + WINDOW_LAG
    ensures var pending, now := Since(w.history, cursor), |w.past| - 1;
      && |w.log| == |w.past| && pending == w.log[Oldest(now)..]
      && pending != [] && pending[|pending| - 1].tick == now
  {
    hide TickRecorded, AscendingById, Since;
    SinceWindow(w.log, cursor);
  }

  // If the power has not changed since the window began, receiving it leaves the power as it was held.
  lemma WindowReceived(w: World, link: Link)
    requires ServerInv(w) && LinkInv(w.past, w.log, link) && link.channel == []
    requires |w.past| - 1 > link.cursor + WINDOW_LAG
    requires forall t :: link.cursor < t < |w.past| ==> w.past[t].world.powerOn == w.past[link.cursor + 1].world.powerOn
    ensures var last := ReceivedAll(link.client, ProjectAll(Since(w.history, link.cursor), link.viewer));
      last.Some? && last.value.tick == |w.past| - 1 && last.value.world.powerOn == w.past[link.cursor].world.powerOn
  {
    hide Folded, AscendingById, TickRecorded, Since, Window, ProjectAll, Received, ReceivedAll;
    IdleLink(w.past, w.log, link);
    WindowBurst(w, link.cursor);
    assert LogInv(w.past, w.log);
    hide ServerInv, LogInv, LinkInv;
    QuietPower(w.past, w.log, link.client.value, Oldest(|w.past| - 1), link.viewer);
  }

  // Past 257 ticks the window has lost the next tick. If that tick threw the power switch and
  // nobody threw it again, and the burst of the whole window gets through the send queue, the
  // client accepts everything it is sent, reaches the current tick, and still shows the wrong
  // power state.
  lemma OverrunDiverges(w: World, link: Link, written: nat)
    requires ServerInv(w) && LinkInv(w.past, w.log, link) && link.channel == []
    requires |w.past| - 1 > link.cursor + WINDOW_LAG
    requires Fits(link, Since(w.history, link.cursor), written)
    requires w.past[link.cursor + 1].world.powerOn != w.past[link.cursor].world.powerOn
    requires forall t :: link.cursor < t < |w.past| ==> w.past[t].world.powerOn == w.past[link.cursor + 1].world.powerOn
    ensures var after := Dispatched(link, Since(w.history, link.cursor), written);
      var last := ReceivedAll(after.client, after.channel);
      && last.Some? && last.value.tick == |w.past| - 1 == after.cursor
      && last.value.world.powerOn != w.past[|w.past| - 1].world.powerOn
  {
    hide Folded, AscendingById, TickRecorded, LinkInv, Since, Window, ProjectAll, Received, ReceivedAll;
    WindowReceived(w, link);
    WindowBurst(w, link.cursor);
    hide ServerInv;
    var burst := ProjectAll(Since(w.history, link.cursor), link.viewer);
    assert link.channel + burst == burst;
  }

  // ---- a run in which that happens ----

  // A match in which nothing happens but the power going out at tick 1.
  function Quiet(tick: nat): GameState {
    GameState(1, tick, Running, 0, PhaseState(Day, 1, 1000),
              MapState(tick == 0, AlarmState(false, 0, 0), 0, [], [], []), [], [], None)
  }

  function QuietWork(tick: nat): TickWork {
    TickWork(Quiet(tick + 1), {}, {}, {}, {}, {}, Quiet(tick + 1), 0, {}, [], None, [])
  }

  lemma QuietTick(tick: nat)
    ensures WellFormed(Quiet(tick), QuietWork(tick)) && Covered(Quiet(tick), QuietWork(tick))
  {
  }

  ghost predicate Whole(worlds: seq<World>, steps: seq<Step>) {
    |worlds| == |steps| + 1 && IsRun(worlds, steps) && Paired(End(worlds))
  }

  predicate Paired(w: World) { |w.past| == |w.log| > 0 }

  function End(worlds: seq<World>): World
    requires worlds != []
  {
    worlds[|worlds| - 1]
  }

  lemma RunGrows(worlds: seq<World>, steps: seq<Step>, step: Step, w: World)
    requires Whole(worlds, steps) && Next(End(worlds), step, w) && Paired(w)
    ensures Whole(worlds + [w], steps + [step]) && End(worlds + [w]) == w
    ensures forall c, lag :: AllTimely(worlds, steps, c, lag) && Timely(End(worlds), step, c, lag) ==>
      AllTimely(worlds + [w], steps + [step], c, lag)
  {
    hide Next, Timely, Initial;
    var worlds', steps' := worlds + [w], steps + [step];
    forall i | 0 <= i < |steps'| ensures Paired(worlds'[i]) && Next(worlds'[i], steps'[i], worlds'[i + 1]) {
      if i < |steps| { assert steps[i] == steps'[i]; }
    }
  }

  // The watcher of connection 0 has joined at tick 0 and received the full snapshot.
  function Watching(depth: nat): Link {
    Link(1, depth, 0, [], 0, Some(ProjectState(Quiet(0), 1)))
  }

  lemma QuietStart(depth: nat) returns (worlds: seq<World>, steps: seq<Step>)
    requires depth > 0
    ensures Whole(worlds, steps) && End(worlds).past == [Quiet(0)]
    ensures End(worlds).links == map[0 := Watching(depth)]
    ensures forall lag :: AllTimely(worlds, steps, 0, lag)
  {
    var full := Full(0, Some(Quiet(0)), []);
    var sent := Projected(full, 1);
    var nobody: map<nat, Link> := map[];
    var w0 := World([Quiet(0)], [full], map[0 := full], nobody);
    var w1 := w0.(links := map[0 := Link(1, depth, 0, [sent], 1, None)]);
    var w2 := w0.(links := map[0 := Link(1, depth, 0, [sent], 0, None)]);
    var w3 := w0.(links := map[0 := Watching(depth)]);
    assert Delivered(w2.links[0]) == Watching(depth);
    worlds, steps := [w0], [];
    RunGrows(worlds, steps, Join(0, 1, depth, []), w1);
    worlds, steps := worlds + [w1], steps + [Join(0, 1, depth, [])];
    RunGrows(worlds, steps, Write(0), w2);
    worlds, steps := worlds + [w2], steps + [Write(0)];
    RunGrows(worlds, steps, Deliver(0), w3);
    worlds, steps := worlds + [w3], steps + [Deliver(0)];
  }

  lemma QuietStep(w: World, n: nat)
    requires n > 0 && Paired(w) && |w.past| == n && w.past[n - 1] == Quiet(n - 1)
    ensures Next(w, Tick(QuietWork(n - 1)), Ticked(w, Quiet(n), TickSnapshot(Quiet(n - 1), QuietWork(n - 1))))
  {
    QuietTick(n - 1);
    hide WellFormed, Covered;
  }

  lemma {:induction false} QuietRun(n: nat, depth: nat) returns (worlds: seq<World>, steps: seq<Step>)
    requires depth > 0
    ensures Whole(worlds, steps) && |End(worlds).past| == n + 1
    ensures forall t :: 0 <= t <= n ==> End(worlds).past[t] == Quiet(t)
    ensures End(worlds).links == map[0 := Watching(depth)]
    ensures forall lag :: AllTimely(worlds, steps, 0, lag)
    decreases n
  {
    hide Next, AllTimely, IsRun, Quiet, TickSnapshot, Watching;
    if n == 0 {
      worlds, steps := QuietStart(depth);
    } else {
      worlds, steps := QuietRun(n - 1, depth);
      var w := End(worlds);
      var next := Ticked(w, Quiet(n), TickSnapshot(Quiet(n - 1), QuietWork(n - 1)));
      QuietStep(w, n);
      RunGrows(worlds, steps, Tick(QuietWork(n - 1)), next);
      worlds, steps := worlds + [next], steps + [Tick(QuietWork(n - 1))];
    }
  }

  // Writing and delivering empties a channel and leaves the client with all of it.
  lemma {:induction false} DrainRun(worlds0: seq<World>, steps0: seq<Step>, c: nat, lag: nat)
    returns (worlds: seq<World>, steps: seq<Step>)
    requires Whole(worlds0, steps0) && AllTimely(worlds0, steps0, c, lag)
    requires c in End(worlds0).links && End(worlds0).links[c].waiting <= |End(worlds0).links[c].channel|
    ensures Whole(worlds, steps) && AllTimely(worlds, steps, c, lag)
    ensures var link := End(worlds0).links[c];
      && End(worlds).past == End(worlds0).past && c in End(worlds).links
      && End(worlds).links[c] == link.(channel := [], waiting := 0, client := ReceivedAll(link.client, link.channel))
    decreases |End(worlds0).links[c].channel| + End(worlds0).links[c].waiting
  {
    hide IsRun, AllTimely, Received;
    var w := End(worlds0);
    var link := w.links[c];
    if link.channel == [] {
      worlds, steps := worlds0, steps0;
    } else if link.waiting > 0 {
      var next := w.(links := w.links[c := link.(waiting := link.waiting - 1)]);
      RunGrows(worlds0, steps0, Write(c), next);
      worlds, steps := DrainRun(worlds0 + [next], steps0 + [Write(c)], c, lag);
    } else {
      var next := w.(links := w.links[c := Delivered(link)]);
      RunGrows(worlds0, steps0, Deliver(c), next);
      worlds, steps := DrainRun(worlds0 + [next], steps0 + [Deliver(c)], c, lag);
    }
  }

  // The late dispatch of that match: the burst gets through a queue of any depth, written as fast
  // as it is filled, and once delivered leaves the client wrong.
  lemma LateDispatch(w: World, lag: nat, depth: nat) returns (next: World)
    requires Paired(w) && Inv(w, 0) && w.links == map[0 := Watching(depth)]
    requires |w.past| == lag + 1 && lag > WINDOW_LAG
    requires forall t :: 0 <= t <= lag ==> w.past[t] == Quiet(t)
    ensures Next(w, Dispatch(0, HISTORY_LIMIT + 1), next) && Paired(next)
    ensures next.past == w.past && 0 in next.links
    ensures var link := next.links[0];
      && link.waiting <= |link.channel| && link.cursor == lag
      && var last := ReceivedAll(link.client, link.channel);
      last.Some? && last.value.tick == lag && last.value.world.powerOn
  {
    hide Window, ProjectAll, ReceivedAll, LogInv, LinkInv;
    var link := Watching(depth);
    SinceWindow(w.log, 0);
    var pending := Since(w.history, 0);
    assert |pending| == HISTORY_LIMIT + 1;
    hide Since;
    OverrunDiverges(w, link, HISTORY_LIMIT + 1);
    next := w.(links := w.links[0 := Dispatched(link, pending, HISTORY_LIMIT + 1)]);
  }

  // For every lag beyond the window there is a run, its dispatches never later than that, whose
  // client has received everything up to the current tick and shows the wrong power state.
  lemma LateDispatchDiverges(lag: nat, depth: nat) returns (worlds: seq<World>, steps: seq<Step>)
    requires lag > WINDOW_LAG && depth > 0
    ensures |worlds| == |steps| + 1 && IsRun(worlds, steps) && AllTimely(worlds, steps, 0, lag)
    ensures var w := worlds[|steps|];
      && |w.past| == lag + 1 && 0 in w.links
      && var link := w.links[0];
      && link.channel == [] && link.cursor == lag && link.client.Some? && link.client.value.tick == lag
      && link.client.value.world.powerOn != w.past[lag].world.powerOn
  {
    hide Next, Inv, Watching, ReceivedAll;
    worlds, steps := QuietRun(lag, depth);
    assert AllTimely(worlds, steps, 0, WINDOW_LAG) && AllTimely(worlds, steps, 0, lag);
    RunKeepsInv(worlds, steps, 0, |steps|);
    var w := End(worlds);
    var next := LateDispatch(w, lag, depth);
    assert Timely(w, Dispatch(0, HISTORY_LIMIT + 1), 0, lag);
    RunGrows(worlds, steps, Dispatch(0, HISTORY_LIMIT + 1), next);
    worlds, steps := DrainRun(worlds + [next], steps + [Dispatch(0, HISTORY_LIMIT + 1)], 0, lag);
  }

  // ---- the exact bound ----

  // Whatever the client holds is its viewer's projection of the server state at its tick.
  ghost predicate Consistent(w: World, c: nat) {
    (c in w.links && w.links[c].client.Some?) ==>
      var held := w.links[c].client.value;
      held.tick < |w.past| && held == ProjectState(w.past[held.tick], w.links[c].viewer)
  }

  // No run whose dispatches find the connection at most `lag` ticks behind goes wrong.
  ghost predicate SafeLag(lag: nat) {
    forall worlds: seq<World>, steps: seq<Step>, c: nat ::
      |worlds| == |steps| + 1 && IsRun(worlds, steps) && AllTimely(worlds, steps, c, lag)
      ==> Consistent(worlds[|steps|], c)
  }

  // A lag is safe in every run if and only if it is at most 257 ticks.
  lemma LagExact(lag: nat)
    ensures SafeLag(lag) <==> lag <= WINDOW_LAG
  {
    if lag <= WINDOW_LAG {
      forall worlds: seq<World>, steps: seq<Step>, c: nat
        | |worlds| == |steps| + 1 && IsRun(worlds, steps) && AllTimely(worlds, steps, c, lag)
        ensures Consistent(worlds[|steps|], c)
      {
        assert AllTimely(worlds, steps, c, WINDOW_LAG);
        if c in worlds[|steps|].links && worlds[|steps|].links[c].client.Some? {
          hide IsRun, AllTimely;
          ClientHoldsProjection(worlds, steps, c);
        }
      }
    } else {
      var worlds, steps := LateDispatchDiverges(lag, 1);
      hide IsRun, AllTimely;
      assert !Consistent(worlds[|steps|], 0);
    }
  }
}
