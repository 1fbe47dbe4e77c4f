// The server's input queue (internal/server/game/input_queue.go) and the batches the tick
// loop takes from it (internal/server/game/manager.go, runMatchLoop).

module InputQueue {

  type PlayerId = nat

  datatype CommandType =
    | AimIntent | BlackMarketBuy | CraftItem | DropItem | EquipItem | FireWeapon
    | Interact | MoveIntent | Reload | UseAbility | UseCard | UseItem
    | Unsupported(name: nat)

  datatype Command = Command(
    player: PlayerId, clientSeq: nat, ingressSeq: nat, targetTick: nat, kind: CommandType, payload: seq<nat>)

  // The log entry of an accepted command; acceptedAt is the tick counter at that moment, in
  // place of the wall clock.
  datatype Entry = Entry(acceptedTick: nat, acceptedAt: nat, command: Command)

  datatype Error = InvalidCommand | InvalidPayload | NotRunning | PlayerMismatch | Duplicate | RateLimited | TooLate
  datatype Result<+T> = Ok(value: T) | Err(error: Error)
  datatype Receipt = Receipt(player: PlayerId, clientSeq: nat, ingressSeq: nat, scheduledTick: nat)

  const MAX_PER_TICK: nat := 8

  // ---- the order of commands within a batch ----

  function TypeRank(kind: CommandType): nat {
    match kind
    case AimIntent => 0
    case BlackMarketBuy => 1
    case CraftItem => 2
    case DropItem => 3
    case EquipItem => 4
    case FireWeapon => 5
    case Interact => 6
    case MoveIntent => 7
    case Reload => 8
    case UseAbility => 9
    case UseCard => 10
    case UseItem => 11
    case Unsupported(name) => 12 + name
  }

  predicate BytesLess(a: seq<nat>, b: seq<nat>) {
    b != [] && (a == [] || a[0] < b[0] || (a[0] == b[0] && BytesLess(a[1..], b[1..])))
  }

  predicate CommandLess(a: Command, b: Command) {
    if a.ingressSeq != b.ingressSeq then a.ingressSeq < b.ingressSeq
    else if a.player != b.player then a.player < b.player
    else if a.clientSeq != b.clientSeq then a.clientSeq < b.clientSeq
    else if a.kind != b.kind then TypeRank(a.kind) < TypeRank(b.kind)
    else BytesLess(a.payload, b.payload)
  }

  // Stable insertion: c goes behind everything it is not less than.
  function Inserted(sorted: seq<Command>, c: Command): seq<Command> {
    if sorted == [] || CommandLess(c, sorted[0]) then [c] + sorted
    else [sorted[0]] + Inserted(sorted[1..], c)
  }

  // sort.SliceStable with the comparator above.
  function StableSorted(commands: seq<Command>): seq<Command> {
    if commands == [] then []
    else Inserted(StableSorted(commands[..|commands| - 1]), commands[|commands| - 1])
  }

  ghost predicate IngressOrdered(commands: seq<Command>) {
    forall i, j :: 0 <= i < j < |commands| ==> commands[i].ingressSeq <= commands[j].ingressSeq
  }

  ghost predicate IngressAscending(commands: seq<Command>) {
    forall i, j :: 0 <= i < j < |commands| ==> commands[i].ingressSeq < commands[j].ingressSeq
  }

  lemma {:induction false} InsertedMembers(sorted: seq<Command>, c: Command)
    ensures multiset(Inserted(sorted, c)) == multiset(sorted) + multiset{c}
  {
    hide CommandLess;
    if sorted != [] && !CommandLess(c, sorted[0]) {
      InsertedMembers(sorted[1..], c);
      assert sorted == [sorted[0]] + sorted[1..];
    }
  }

  lemma LessIngress(a: Command, b: Command)
    ensures CommandLess(a, b) ==> a.ingressSeq <= b.ingressSeq
    ensures !CommandLess(a, b) ==> b.ingressSeq <= a.ingressSeq
  {
  }

  lemma {:induction false} InsertedOrdered(sorted: seq<Command>, c: Command)
    requires IngressOrdered(sorted)
    ensures IngressOrdered(Inserted(sorted, c))
    ensures Inserted(sorted, c)[0] == c || (sorted != [] && Inserted(sorted, c)[0] == sorted[0])
  {
    hide CommandLess;
    if sorted != [] {
      LessIngress(c, sorted[0]);
      if !CommandLess(c, sorted[0]) {
        InsertedOrdered(sorted[1..], c);
        var tail := Inserted(sorted[1..], c);
        assert sorted[0].ingressSeq <= tail[0].ingressSeq;
      }
    }
  }

  lemma {:induction false} StableSortedShape(commands: seq<Command>)
    ensures IngressOrdered(StableSorted(commands))
    ensures multiset(StableSorted(commands)) == multiset(commands)
  {
    if commands != [] {
      var n := |commands| - 1;
      StableSortedShape(commands[..n]);
      InsertedOrdered(StableSorted(commands[..n]), commands[n]);
      InsertedMembers(StableSorted(commands[..n]), commands[n]);
      hide Inserted, IngressOrdered;
      assert commands == commands[..n] + [commands[n]];
    }
  }

  lemma FirstIsLeast(a: seq<Command>, b: seq<Command>)
    requires IngressOrdered(a) && IngressAscending(b) && multiset(a) == multiset(b) && a != [] && b != []
    ensures a[0] == b[0]
  {
    assert a[0] in multiset(b) && b[0] in multiset(a);
    var i :| 0 <= i < |b| && b[i] == a[0];
    var j :| 0 <= j < |a| && a[j] == b[0];
  }

  lemma RestSame(a: seq<Command>, b: seq<Command>)
    requires a != [] && b != [] && a[0] == b[0] && multiset(a) == multiset(b)
    ensures multiset(a[1..]) == multiset(b[1..])
  {
    assert a == [a[0]] + a[1..] && b == [b[0]] + b[1..];
    assert multiset(a[1..]) == multiset(a) - multiset{a[0]};
    assert multiset(b[1..]) == multiset(b) - multiset{b[0]};
  }

  lemma {:induction false} OrderedUnique(a: seq<Command>, b: seq<Command>)
    requires IngressOrdered(a) && IngressAscending(b) && multiset(a) == multiset(b)
    ensures a == b
  {
    assert |a| == |multiset(a)| == |multiset(b)| == |b|;
    if b != [] {
      FirstIsLeast(a, b);
      RestSame(a, b);
      OrderedUnique(a[1..], b[1..]);
      assert a == [a[0]] + a[1..] && b == [b[0]] + b[1..];
    }
  }

  // However a log with distinct ingress numbers is shuffled, sorting restores ingress order.
  lemma SortRestores(shuffled: seq<Command>, ascending: seq<Command>)
    requires IngressAscending(ascending) && multiset(shuffled) == multiset(ascending)
    ensures StableSorted(shuffled) == ascending
  {
    StableSortedShape(shuffled);
    OrderedUnique(StableSorted(shuffled), ascending);
  }

  // ---- the queue ----

  datatype Queue = Queue(
    running: bool, tick: nat, roster: set<PlayerId>, nextIngress: nat,
    scheduled: map<nat, seq<Command>>, seen: map<PlayerId, set<nat>>,
    accepted: map<nat, map<PlayerId, nat>>, entries: seq<Entry>)

  predicate IsContinuous(kind: CommandType) { kind == MoveIntent || kind == AimIntent }

  function ComputeScheduledTick(current: nat, requested: nat, kind: CommandType): (r: Result<nat>)
    ensures r.Ok? ==> current + 1 <= r.value <= current + 2
    ensures r.Err? <==> 0 < requested < current && !IsContinuous(kind)
    ensures r.Ok? && current + 1 <= requested <= current + 2 ==> r.value == requested
  {
    if requested == 0 then Ok(current + 1)
    else if requested < current then
      if IsContinuous(kind) then Ok(current + 1) else Err(TooLate)
    else if requested < current + 1 then Ok(current + 1)
    else if requested > current + 2 then Ok(current + 2)
    else Ok(requested)
  }

  function At<T>(table: map<nat, T>, key: nat, absent: T): T {
    if key in table then table[key] else absent
  }

  function Pruned(accepted: map<nat, map<PlayerId, nat>>, current: nat): map<nat, map<PlayerId, nat>> {
    if current <= 3 then accepted
    else map tick | tick in accepted && tick >= current - 3 :: accepted[tick]
  }

  // Why a command that passed the payload check is refused, if it is.
  function Refusal(q: Queue, c: Command, payloadOk: bool): (r: Result<nat>) {
    if c.player == 0 || c.clientSeq == 0 || c.kind.Unsupported? then Err(InvalidCommand)
    else if !payloadOk then Err(InvalidPayload)
    else if !q.running then Err(NotRunning)
    else if c.player !in q.roster then Err(PlayerMismatch)
    else if c.clientSeq in At(q.seen, c.player, {}) then Err(Duplicate)
    else if At(At(q.accepted, q.tick, map[]), c.player, 0) >= MAX_PER_TICK then Err(RateLimited)
    else ComputeScheduledTick(q.tick, c.targetTick, c.kind)
  }

  // The queue after the lookups of a submit that got past the roster check: they leave empty
  // entries behind even when the command is refused.
  function Touched(q: Queue, c: Command): Queue {
    var seen := q.seen[c.player := At(q.seen, c.player, {})];
    if c.clientSeq in At(q.seen, c.player, {}) then q.(seen := seen)
    else q.(seen := seen, accepted := q.accepted[q.tick := At(q.accepted, q.tick, map[])])
  }

  function Enqueued(q: Queue, c: Command, tick: nat): Queue {
    var command := c.(ingressSeq := q.nextIngress + 1, targetTick := tick);
    var window := At(q.accepted, q.tick, map[]);
    q.(nextIngress := q.nextIngress + 1,
       scheduled := q.scheduled[tick := At(q.scheduled, tick, []) + [command]],
       entries := q.entries + [Entry(tick, q.tick, command)],
       seen := q.seen[c.player := At(q.seen, c.player, {}) + {c.clientSeq}],
       accepted := Pruned(q.accepted[q.tick := window[c.player := At(window, c.player, 0) + 1]], q.tick))
  }

  function Submitted(q: Queue, c: Command, payloadOk: bool): Queue {
    match Refusal(q, c, payloadOk)
    case Ok(tick) => Enqueued(q, c, tick)
    case Err(e) => if e in {Duplicate, RateLimited, TooLate} then Touched(q, c) else q
  }

  // The queue of a match that is over.
  function Stopped(q: Queue): Queue { q.(running := false, scheduled := map[], accepted := map[], seen := map[]) }

  // The queue after one tick; `over` says the tick ended the match.
  function Ticked(q: Queue, over: bool): Queue {
    var next := q.(tick := q.tick + 1, scheduled := q.scheduled - {q.tick + 1});
    if over then Stopped(next) else next
  }

  function NextBatch(q: Queue): seq<Command> { StableSorted(At(q.scheduled, q.tick + 1, [])) }

  lemma Overwritten<T>(table: map<nat, T>, key: nat, before: T, after: T)
    ensures table[key := before][key := after] == table[key := after]
  {
  }

  // Enqueueing after the lookups is enqueueing: they leave nothing that acceptance does not overwrite.
  lemma TouchedEnqueued(q: Queue, c: Command, tick: nat)
    requires c.clientSeq !in At(q.seen, c.player, {})
    ensures Enqueued(Touched(q, c), c, tick) == Enqueued(q, c, tick)
  {
    hide Pruned;
    var t := Touched(q, c);
    var seen, window := At(q.seen, c.player, {}), At(q.accepted, q.tick, map[]);
    assert At(t.seen, c.player, {}) == seen && At(t.accepted, q.tick, map[]) == window;
    Overwritten(q.seen, c.player, seen, seen + {c.clientSeq});
    Overwritten(q.accepted, q.tick, window, window[c.player := At(window, c.player, 0) + 1]);
  }

  class InputSession {
    var running: bool
    var tickId: nat
    var players: set<PlayerId>
    var nextIngressSeq: nat
    var scheduledInputs: map<nat, seq<Command>>
    var seenClientSeq: map<PlayerId, set<nat>>
    var acceptedByTick: map<nat, map<PlayerId, nat>>
    var replayEntries: seq<Entry>

    ghost function View(): Queue
      reads this
    {
      Queue(running, tickId, players, nextIngressSeq, scheduledInputs, seenClientSeq, acceptedByTick, replayEntries)
    }

    // StartMatch, for a session that never ran before.
    constructor (roster: set<PlayerId>)
      ensures View() == Started(roster)
    {
      running, tickId, players, nextIngressSeq := true, 0, roster, 0;
      scheduledInputs, seenClientSeq, acceptedByTick, replayEntries := map[], map[], map[], [];
    }

    method SubmitInput(command: Command, payloadOk: bool) returns (result: Result<Receipt>)
      modifies this
      ensures View() == Submitted(old(View()), command, payloadOk)
      ensures var refusal := Refusal(old(View()), command, payloadOk);
        result == if refusal.Err? then Err(refusal.error)
                  else Ok(Receipt(command.player, command.clientSeq, old(nextIngressSeq) + 1, refusal.value))
    {
      if command.player == 0 || command.clientSeq == 0 || command.kind.Unsupported? {
        return Err(InvalidCommand);
      }
      if !payloadOk { return Err(InvalidPayload); }
      if !running { return Err(NotRunning); }
      if command.player !in players { return Err(PlayerMismatch); }

      ghost var before := View();
      if command.player !in seenClientSeq {
        seenClientSeq := seenClientSeq[command.player := {}];
      }
      assert seenClientSeq == before.seen[command.player := At(before.seen, command.player, {})];
      if command.clientSeq in seenClientSeq[command.player] { return Err(Duplicate); }

      OpenWindow();
      assert View() == Touched(before, command);
      var window := acceptedByTick[tickId];
      if command.player in window && window[command.player] >= MAX_PER_TICK { return Err(RateLimited); }

      var target := ComputeScheduledTick(tickId, command.targetTick, command.kind);
      if target.Err? { return Err(target.error); }
      assert Refusal(before, command, payloadOk) == target;
      TouchedEnqueued(before, command, target.value);
      hide Touched, Refusal;
      Enqueue(command, target.value);
      return Ok(Receipt(command.player, command.clientSeq, nextIngressSeq, target.value));
    }

    method OpenWindow()
      modifies this`acceptedByTick
      ensures acceptedByTick == old(acceptedByTick)[tickId := At(old(acceptedByTick), tickId, map[])]
    {
      if tickId !in acceptedByTick {
        var empty: map<PlayerId, nat> := map[];
        acceptedByTick := acceptedByTick[tickId := empty];
      }
    }

    method Enqueue(command: Command, scheduledTick: nat)
      requires command.player in seenClientSeq && tickId in acceptedByTick
      modifies this
      ensures View() == Enqueued(old(View()), command, scheduledTick)
    {
      hide Pruned;
      nextIngressSeq := nextIngressSeq + 1;
      var accepted := command.(ingressSeq := nextIngressSeq, targetTick := scheduledTick);
      scheduledInputs := scheduledInputs[scheduledTick := At(scheduledInputs, scheduledTick, []) + [accepted]];
      replayEntries := replayEntries + [Entry(scheduledTick, tickId, accepted)];
      seenClientSeq := seenClientSeq[command.player := seenClientSeq[command.player] + {command.clientSeq}];
      var window: map<PlayerId, nat> := acceptedByTick[tickId];
      window := window[command.player := At(window, command.player, 0) + 1];
      acceptedByTick := acceptedByTick[tickId := window];
      PruneRateWindows(tickId);
    }

    method PruneRateWindows(currentTick: nat)
      modifies this`acceptedByTick
      ensures acceptedByTick == Pruned(old(acceptedByTick), currentTick)
    {
      if currentTick <= 3 { return; }
      var cutoff := currentTick - 3;
      ghost var before := acceptedByTick;
      var pending := acceptedByTick.Keys;
      while pending != {}
        invariant pending <= before.Keys
        invariant acceptedByTick == map tick | tick in before && (tick in pending || tick >= cutoff) :: before[tick]
        decreases |pending|
      {
        var tick :| tick in pending;
        if tick < cutoff { acceptedByTick := acceptedByTick - {tick}; }
        pending := pending - {tick};
      }
    }

    method RunTick(over: bool) returns (batch: seq<Command>)
      requires running
      modifies this
      ensures batch == NextBatch(old(View()))
      ensures View() == Ticked(old(View()), over)
    {
      tickId := tickId + 1;
      var commands := At(scheduledInputs, tickId, []);
      scheduledInputs := scheduledInputs - {tickId};
      batch := StableSorted(commands);
      if over { Stop(); }
    }

    // What EndMatch, or the tick that decides the match, does to the queue.
    method Stop()
      modifies this
      ensures View() == Stopped(old(View()))
    {
      running := false;
      scheduledInputs, acceptedByTick, seenClientSeq := map[], map[], map[];
    }
  }

  function Started(roster: set<PlayerId>): Queue {
    Queue(true, 0, roster, 0, map[], map[], map[], [])
  }
}
