// Whole runs of submits and ticks: every accepted command is executed once, in ingress order,
// at its scheduled tick, and replaying the recorded log reproduces the batches.

module InputRuns {
  import opened InputQueue
  import opened Replay

  // End: the match is ended by hand, between two ticks.
  datatype Step = Submit(command: Command, payloadOk: bool) | Tick(over: bool) | End

  // The queue and the batches the tick loop has executed; executed[t - 1] is tick t's.
  datatype Trace = Trace(queue: Queue, executed: seq<seq<Command>>)

  function After(tr: Trace, step: Step): Trace {
    match step
    case Submit(command, payloadOk) => tr.(queue := Submitted(tr.queue, command, payloadOk))
    case Tick(over) =>
      if !tr.queue.running then tr
      else Trace(InputQueue.Ticked(tr.queue, over), tr.executed + [NextBatch(tr.queue)])
    case End => if !tr.queue.running then tr else tr.(queue := Stopped(tr.queue))
  }

  function Run(roster: set<PlayerId>, steps: seq<Step>): Trace {
    if steps == [] then Trace(Started(roster), [])
    else After(Run(roster, steps[..|steps| - 1]), steps[|steps| - 1])
  }

  // ---- the log ----

  function CommandsOf(entries: seq<Entry>): (commands: seq<Command>)
    ensures |commands| == |entries|
    ensures forall i :: 0 <= i < |entries| ==> commands[i] == entries[i].command
  {
    seq(|entries|, i requires 0 <= i < |entries| => entries[i].command)
  }

  // The logged commands scheduled for one tick, in log order.
  function Batch(entries: seq<Entry>, tick: nat): seq<Command> {
    if entries == [] then []
    else
      var n := |entries| - 1;
      Batch(entries[..n], tick) + (if entries[n].command.targetTick == tick then [entries[n].command] else [])
  }

  // How many of a player's commands were accepted while the counter stood at `at`.
  function AcceptedAt(entries: seq<Entry>, player: PlayerId, at: nat): nat {
    if entries == [] then 0
    else
      var n := |entries| - 1;
      AcceptedAt(entries[..n], player, at) +
      (if entries[n].command.player == player && entries[n].acceptedAt == at then 1 else 0)
  }

  function ShareOf(batch: seq<Command>, player: PlayerId): nat {
    if batch == [] then 0
    else ShareOf(batch[..|batch| - 1], player) + (if batch[|batch| - 1].player == player then 1 else 0)
  }

  ghost predicate Logged(entries: seq<Entry>) {
    && (forall i :: 0 <= i < |entries| ==> entries[i].command.ingressSeq == i + 1)
    && (forall i :: 0 <= i < |entries| ==>
         && entries[i].acceptedTick == entries[i].command.targetTick
         && entries[i].acceptedAt + 1 <= entries[i].acceptedTick <= entries[i].acceptedAt + 2)
  }

  ghost predicate DistinctPairs(entries: seq<Entry>) {
    forall i, j :: 0 <= i < j < |entries| ==>
      (entries[i].command.player, entries[i].command.clientSeq)
      != (entries[j].command.player, entries[j].command.clientSeq)
  }

  predicate Holds(entries: seq<Entry>, c: Command, tick: nat) {
    c.targetTick == tick && 1 <= c.ingressSeq <= |entries| && entries[c.ingressSeq - 1].command == c
  }

  lemma {:induction false} BatchHeld(entries: seq<Entry>, tick: nat)
    requires Logged(entries)
    ensures forall i :: 0 <= i < |Batch(entries, tick)| ==> Holds(entries, Batch(entries, tick)[i], tick)
  {
    if entries != [] {
      var n := |entries| - 1;
      BatchHeld(entries[..n], tick);
      forall c | Holds(entries[..n], c, tick) ensures Holds(entries, c, tick) {
        assert entries[..n][c.ingressSeq - 1] == entries[c.ingressSeq - 1];
      }
    }
  }

  lemma {:induction false} BatchAscending(entries: seq<Entry>, tick: nat)
    requires Logged(entries)
    ensures IngressAscending(Batch(entries, tick))
  {
    if entries != [] {
      var n := |entries| - 1;
      BatchAscending(entries[..n], tick);
      BatchHeld(entries[..n], tick);
      hide Logged;
    }
  }

  lemma {:induction false} BatchOfLater(entries: seq<Entry>, tick: nat)
    requires forall i :: 0 <= i < |entries| ==> entries[i].command.targetTick < tick
    ensures Batch(entries, tick) == []
  {
    if entries != [] { BatchOfLater(entries[..|entries| - 1], tick); }
  }

  lemma {:induction false} AcceptedAtLater(entries: seq<Entry>, player: PlayerId, at: nat)
    requires forall i :: 0 <= i < |entries| ==> entries[i].acceptedAt < at
    ensures AcceptedAt(entries, player, at) == 0
  {
    if entries != [] { AcceptedAtLater(entries[..|entries| - 1], player, at); }
  }

  // A batch only holds commands accepted one or two ticks earlier.
  lemma {:induction false} BatchShare(entries: seq<Entry>, player: PlayerId, tick: nat)
    requires Logged(entries)
    ensures ShareOf(Batch(entries, tick), player)
      <= (if tick >= 1 then AcceptedAt(entries, player, tick - 1) else 0)
       + (if tick >= 2 then AcceptedAt(entries, player, tick - 2) else 0)
  {
    if entries != [] {
      var n := |entries| - 1;
      var front := Batch(entries[..n], tick);
      BatchShare(entries[..n], player, tick);
      var c := entries[n].command;
      assert (front + [c])[..|front|] == front;
      assert front + [] == front;
    }
  }

  // ---- invariants of a run ----

  ghost predicate Scheduled(q: Queue) {
    && (forall tick :: tick in q.scheduled ==> tick == q.tick + 1 || tick == q.tick + 2)
    && At(q.scheduled, q.tick + 1, []) == Batch(q.entries, q.tick + 1)
    && At(q.scheduled, q.tick + 2, []) == Batch(q.entries, q.tick + 2)
  }

  ghost predicate Executed(tr: Trace) {
    && |tr.executed| == tr.queue.tick
    && (forall t {:trigger tr.executed[t]} :: 0 <= t < |tr.executed| ==>
         tr.executed[t] == Batch(tr.queue.entries, t + 1))
  }

  ghost predicate SeenAll(q: Queue) {
    forall i :: 0 <= i < |q.entries| ==>
      q.entries[i].command.clientSeq in At(q.seen, q.entries[i].command.player, {})
  }

  ghost predicate Counted(q: Queue) {
    && (forall tick :: tick in q.accepted ==> tick <= q.tick)
    && (forall p :: At(At(q.accepted, q.tick, map[]), p, 0) == AcceptedAt(q.entries, p, q.tick))
  }

  ghost predicate RateKept(entries: seq<Entry>) {
    forall p, at :: AcceptedAt(entries, p, at) <= MAX_PER_TICK
  }

  ghost predicate Inv(tr: Trace) {
    var q := tr.queue;
    && Logged(q.entries) && |q.entries| == q.nextIngress
    && (forall i :: 0 <= i < |q.entries| ==> q.entries[i].acceptedAt <= q.tick)
    && DistinctPairs(q.entries)
    && RateKept(q.entries)
    && Executed(tr)
    && (q.running ==> Scheduled(q) && SeenAll(q) && Counted(q))
  }

  lemma BatchAppend(entries: seq<Entry>, e: Entry, tick: nat)
    ensures Batch(entries + [e], tick)
         == Batch(entries, tick) + (if e.command.targetTick == tick then [e.command] else [])
  {
    assert (entries + [e])[..|entries|] == entries;
  }

  lemma AcceptedAtAppend(entries: seq<Entry>, e: Entry, player: PlayerId, at: nat)
    ensures AcceptedAt(entries + [e], player, at)
         == AcceptedAt(entries, player, at) + (if e.command.player == player && e.acceptedAt == at then 1 else 0)
  {
    assert (entries + [e])[..|entries|] == entries;
  }

  lemma EnqueuedScheduled(q: Queue, c: Command, tick: nat)
    requires Scheduled(q) && (tick == q.tick + 1 || tick == q.tick + 2)
    ensures Scheduled(Enqueued(q, c, tick))
  {
    hide Pruned, Batch;
    var e := Entry(tick, q.tick, c.(ingressSeq := q.nextIngress + 1, targetTick := tick));
    BatchAppend(q.entries, e, q.tick + 1);
    BatchAppend(q.entries, e, q.tick + 2);
  }

  lemma EnqueuedExecuted(tr: Trace, c: Command, tick: nat)
    requires Executed(tr) && tick > tr.queue.tick
    ensures Executed(tr.(queue := Enqueued(tr.queue, c, tick)))
  {
    var q := tr.queue;
    var e := Entry(tick, q.tick, c.(ingressSeq := q.nextIngress + 1, targetTick := tick));
    forall t | 0 <= t < |tr.executed| ensures Batch(q.entries + [e], t + 1) == tr.executed[t] {
      BatchAppend(q.entries, e, t + 1);
    }
  }

  lemma EnqueuedCounted(q: Queue, c: Command, tick: nat)
    requires Counted(q) && RateKept(q.entries)
    requires At(At(q.accepted, q.tick, map[]), c.player, 0) < MAX_PER_TICK
    ensures Counted(Enqueued(q, c, tick)) && RateKept(Enqueued(q, c, tick).entries)
  {
    var q' := Enqueued(q, c, tick);
    var e := Entry(tick, q.tick, c.(ingressSeq := q.nextIngress + 1, targetTick := tick));
    var window := At(q.accepted, q.tick, map[]);
    assert At(q'.accepted, q.tick, map[]) == window[c.player := At(window, c.player, 0) + 1];
    forall p, at
      ensures AcceptedAt(q'.entries, p, at)
           == AcceptedAt(q.entries, p, at) + (if e.command.player == p && e.acceptedAt == at then 1 else 0)
    {
      AcceptedAtAppend(q.entries, e, p, at);
    }
  }

  lemma EnqueuedLog(q: Queue, c: Command, tick: nat)
    requires Logged(q.entries) && |q.entries| == q.nextIngress && (tick == q.tick + 1 || tick == q.tick + 2)
    requires DistinctPairs(q.entries) && SeenAll(q) && c.clientSeq !in At(q.seen, c.player, {})
    ensures Logged(Enqueued(q, c, tick).entries)
    ensures DistinctPairs(Enqueued(q, c, tick).entries) && SeenAll(Enqueued(q, c, tick))
  {
  }

  lemma EnqueuedKeeps(tr: Trace, c: Command, tick: nat)
    requires Inv(tr) && tr.queue.running && (tick == tr.queue.tick + 1 || tick == tr.queue.tick + 2)
    requires c.clientSeq !in At(tr.queue.seen, c.player, {})
    requires At(At(tr.queue.accepted, tr.queue.tick, map[]), c.player, 0) < MAX_PER_TICK
    ensures Inv(tr.(queue := Enqueued(tr.queue, c, tick)))
  {
    hide Scheduled, Executed, Counted, RateKept, SeenAll, DistinctPairs, Logged, Pruned;
    EnqueuedScheduled(tr.queue, c, tick);
    EnqueuedExecuted(tr, c, tick);
    EnqueuedCounted(tr.queue, c, tick);
    EnqueuedLog(tr.queue, c, tick);
  }

  lemma TouchedKeeps(tr: Trace, c: Command)
    requires Inv(tr) && tr.queue.running
    ensures Inv(tr.(queue := Touched(tr.queue, c)))
  {
    hide Logged, DistinctPairs, RateKept, Batch, AcceptedAt;
    var q, q' := tr.queue, Touched(tr.queue, c);
    assert forall p :: At(q'.seen, p, {}) == At(q.seen, p, {});
    assert At(q'.accepted, q.tick, map[]) == At(q.accepted, q.tick, map[]);
  }

  lemma SubmitKeeps(tr: Trace, c: Command, payloadOk: bool)
    requires Inv(tr)
    ensures Inv(After(tr, Submit(c, payloadOk)))
  {
    hide Inv, Enqueued, Touched;
    match Refusal(tr.queue, c, payloadOk)
    case Ok(tick) => EnqueuedKeeps(tr, c, tick);
    case Err(e) => if e in {Duplicate, RateLimited, TooLate} { TouchedKeeps(tr, c); }
  }

  // The batch the tick loop takes is the log's, already in order: sorting it changes nothing.
  lemma BatchTaken(q: Queue)
    requires Scheduled(q) && Logged(q.entries)
    ensures NextBatch(q) == Batch(q.entries, q.tick + 1)
  {
    hide Logged, Batch, StableSorted;
    var batch := Batch(q.entries, q.tick + 1);
    BatchAscending(q.entries, q.tick + 1);
    SortRestores(batch, batch);
  }

  lemma TickExecuted(tr: Trace, over: bool)
    requires Executed(tr) && Scheduled(tr.queue) && Logged(tr.queue.entries) && tr.queue.running
    ensures Executed(After(tr, Tick(over)))
  {
    BatchTaken(tr.queue);
    hide Scheduled, Logged, Batch, NextBatch;
  }

  lemma TickScheduled(q: Queue)
    requires Scheduled(q) && Logged(q.entries)
    requires forall i :: 0 <= i < |q.entries| ==> q.entries[i].acceptedAt <= q.tick
    ensures Scheduled(InputQueue.Ticked(q, false))
  {
    BatchOfLater(q.entries, q.tick + 3);
  }

  lemma TickCounted(q: Queue)
    requires Counted(q)
    requires forall i :: 0 <= i < |q.entries| ==> q.entries[i].acceptedAt <= q.tick
    ensures Counted(InputQueue.Ticked(q, false))
  {
    var next := q.tick + 1;
    forall p ensures AcceptedAt(q.entries, p, next) == 0 {
      AcceptedAtLater(q.entries, p, next);
    }
  }

  lemma TickKeeps(tr: Trace, over: bool)
    requires Inv(tr)
    ensures Inv(After(tr, Tick(over)))
  {
    hide Scheduled, Executed, Counted, RateKept, Logged, DistinctPairs, NextBatch;
    if tr.queue.running {
      TickExecuted(tr, over);
      TickScheduled(tr.queue);
      TickCounted(tr.queue);
    }
  }

  lemma {:induction false} RunKeeps(roster: set<PlayerId>, steps: seq<Step>)
    ensures Inv(Run(roster, steps))
  {
    hide Inv, After;
    if steps == [] {
      StartedInv(roster);
    } else {
      var before, step := Run(roster, steps[..|steps| - 1]), steps[|steps| - 1];
      RunKeeps(roster, steps[..|steps| - 1]);
      match step
      case Submit(c, payloadOk) => SubmitKeeps(before, c, payloadOk);
      case Tick(over) => TickKeeps(before, over);
      case End => EndKeeps(before);
    }
  }

  lemma EndKeeps(tr: Trace)
    requires Inv(tr)
    ensures Inv(After(tr, End))
  {
    hide RateKept, Logged, DistinctPairs, Batch;
  }

  lemma StartedInv(roster: set<PlayerId>)
    ensures Inv(Trace(Started(roster), []))
  {
  }

  // ---- what a run guarantees ----

  // Every accepted command waits only for one of the next two ticks while the match runs, and
  // each tick executes exactly the logged commands scheduled for it, in ingress order.
  lemma ExecutedAsLogged(roster: set<PlayerId>, steps: seq<Step>)
    ensures var tr := Run(roster, steps);
      && |tr.executed| == tr.queue.tick
      && (forall t {:trigger tr.executed[t]} :: 0 <= t < |tr.executed| ==>
           tr.executed[t] == Batch(tr.queue.entries, t + 1) && IngressAscending(tr.executed[t]))
      && (tr.queue.running ==>
           forall tick :: tick in tr.queue.scheduled ==>
             tr.queue.tick + 1 <= tick <= tr.queue.tick + 2
             && tr.queue.scheduled[tick] == Batch(tr.queue.entries, tick))
      && (forall i :: 0 <= i < |tr.queue.entries| ==>
           var e := tr.queue.entries[i];
           e.acceptedAt + 1 <= e.command.targetTick <= e.acceptedAt + 2)
  {
    RunKeeps(roster, steps);
    var tr := Run(roster, steps);
    hide Batch, IngressAscending, AcceptedAt, Run;
    forall t | 0 <= t < |tr.executed| ensures IngressAscending(tr.executed[t]) {
      BatchAscending(tr.queue.entries, t + 1);
    }
  }

  lemma {:induction false} BatchHas(entries: seq<Entry>, i: nat)
    requires i < |entries|
    ensures entries[i].command in Batch(entries, entries[i].command.targetTick)
  {
    if i < |entries| - 1 { BatchHas(entries[..|entries| - 1], i); }
  }

  // Every accepted command is executed at its scheduled tick once that tick has run.
  lemma AcceptedIsExecuted(roster: set<PlayerId>, steps: seq<Step>, i: nat)
    requires i < |Run(roster, steps).queue.entries|
    requires Run(roster, steps).queue.entries[i].command.targetTick <= Run(roster, steps).queue.tick
    ensures var tr := Run(roster, steps);
      var c := tr.queue.entries[i].command;
      1 <= c.targetTick <= |tr.executed| && c in tr.executed[c.targetTick - 1]
  {
    RunKeeps(roster, steps);
    var tr := Run(roster, steps);
    BatchHas(tr.queue.entries, i);
    assert tr.executed[tr.queue.entries[i].command.targetTick - 1]
        == Batch(tr.queue.entries, tr.queue.entries[i].command.targetTick);
  }

  lemma SamePairOnce(entries: seq<Entry>, a: Command, s: nat, b: Command, t: nat)
    requires DistinctPairs(entries) && Holds(entries, a, s) && Holds(entries, b, t)
    requires a.player == b.player && a.clientSeq == b.clientSeq
    ensures a == b && s == t
  {
  }

  // No (player, client sequence) pair is executed twice, in one batch or in two.
  lemma ExecutedOnce(roster: set<PlayerId>, steps: seq<Step>, t: nat, i: nat, u: nat, j: nat)
    requires var executed := Run(roster, steps).executed;
      && t < |executed| && i < |executed[t]| && u < |executed| && j < |executed[u]|
      && executed[t][i].player == executed[u][j].player
      && executed[t][i].clientSeq == executed[u][j].clientSeq
    ensures t == u && i == j
  {
    RunKeeps(roster, steps);
    var tr := Run(roster, steps);
    hide Run, Batch, Scheduled, Logged;
    BatchHeld(tr.queue.entries, t + 1);
    BatchHeld(tr.queue.entries, u + 1);
    BatchAscending(tr.queue.entries, t + 1);
    SamePairOnce(tr.queue.entries, tr.executed[t][i], t + 1, tr.executed[u][j], u + 1);
  }

  // Eight accepted per tick, each for one of the next two: at most sixteen in a batch.
  lemma SixteenPerBatch(roster: set<PlayerId>, steps: seq<Step>, t: nat, player: PlayerId)
    requires t < |Run(roster, steps).executed|
    ensures ShareOf(Run(roster, steps).executed[t], player) <= 16
  {
    RunKeeps(roster, steps);
    var tr := Run(roster, steps);
    BatchShare(tr.queue.entries, player, t + 1);
  }

  // ---- replay ----

  lemma LogDistinct(entries: seq<Entry>)
    requires Logged(entries) && DistinctPairs(entries)
    ensures IngressAscending(CommandsOf(entries))
    ensures Deduped(CommandsOf(entries)) == CommandsOf(entries)
  {
    DedupedDistinct(CommandsOf(entries));
  }

  lemma {:induction false} FiledAsLogged(entries: seq<Entry>, end: nat, tick: nat)
    requires Logged(entries) && 1 <= tick <= end
    ensures FiledUnder(CommandsOf(entries), 1, end, tick) == Batch(entries, tick)
  {
    if entries != [] {
      var n := |entries| - 1;
      FiledAsLogged(entries[..n], end, tick);
      assert CommandsOf(entries)[..n] == CommandsOf(entries[..n]);
      assert entries[n].command.(targetTick := entries[n].command.targetTick) == entries[n].command;
    }
  }

  // Normalising and re-scheduling any shuffling of the recorded log files under every tick that
  // ran exactly the batch the live loop executed, in the same order.
  lemma ReplayedBatches(roster: set<PlayerId>, steps: seq<Step>, log: seq<Command>, end: nat, tick: nat)
    requires var tr := Run(roster, steps);
      && multiset(log) == multiset(CommandsOf(tr.queue.entries))
      && 1 <= tick <= tr.queue.tick && tick <= end
    ensures var tr := Run(roster, steps);
      && tick <= |tr.executed|
      && FiledUnder(Normalized(log), 1, end, tick) == tr.executed[tick - 1]
      && StableSorted(FiledUnder(Normalized(log), 1, end, tick)) == tr.executed[tick - 1]
  {
    RunKeeps(roster, steps);
    var tr := Run(roster, steps);
    var entries := tr.queue.entries;
    LogDistinct(entries);
    SortRestores(log, CommandsOf(entries));
    FiledAsLogged(entries, end, tick);
    BatchAscending(entries, tick);
    SortRestores(Batch(entries, tick), Batch(entries, tick));
    assert tr.executed[tick - 1] == Batch(entries, tick);
  }

  // The state the live loop reaches, stepping it with each batch as the tick takes it.
  function Lived<S>(roster: set<PlayerId>, steps: seq<Step>, step: (S, nat, seq<Command>) -> S, initial: S): S {
    if steps == [] then initial
    else
      var front := steps[..|steps| - 1];
      var q, state := Run(roster, front).queue, Lived(roster, front, step, initial);
      if steps[|steps| - 1].Tick? && q.running then step(state, q.tick + 1, NextBatch(q)) else state
  }

  function BatchAt(executed: seq<seq<Command>>, tick: nat): seq<Command> {
    if 1 <= tick <= |executed| then executed[tick - 1] else []
  }

  function LiveBatches(executed: seq<seq<Command>>): nat -> seq<Command> { (tick: nat) => BatchAt(executed, tick) }

  lemma AfterExecuted(tr: Trace, step: Step)
    ensures After(tr, step).executed ==
      if step.Tick? && tr.queue.running then tr.executed + [NextBatch(tr.queue)] else tr.executed
  {
  }

  lemma PlayedOneMore<S>(executed: seq<seq<Command>>, batch: seq<Command>,
      step: (S, nat, seq<Command>) -> S, initial: S)
    ensures Played(step, initial, LiveBatches(executed + [batch]), 1, |executed| + 2) ==
      step(Played(step, initial, LiveBatches(executed), 1, |executed| + 1), |executed| + 1, batch)
  {
    PlayedAgree(step, initial, LiveBatches(executed), LiveBatches(executed + [batch]), 1, |executed| + 1);
  }

  lemma LivedNext<S>(roster: set<PlayerId>, steps: seq<Step>, step: (S, nat, seq<Command>) -> S, initial: S)
    requires steps != []
    ensures var front, last := steps[..|steps| - 1], steps[|steps| - 1];
      var before, lived := Run(roster, front), Lived(roster, front, step, initial);
      var batch := NextBatch(before.queue);
      if last.Tick? && before.queue.running
      then Run(roster, steps).executed == before.executed + [batch]
        && Lived(roster, steps, step, initial) == step(lived, before.queue.tick + 1, batch)
      else Run(roster, steps).executed == before.executed && Lived(roster, steps, step, initial) == lived
  {
    hide After, NextBatch;
    AfterExecuted(Run(roster, steps[..|steps| - 1]), steps[|steps| - 1]);
  }

  lemma {:induction false} LivedIsPlayed<S>(roster: set<PlayerId>, steps: seq<Step>,
      step: (S, nat, seq<Command>) -> S, initial: S)
    ensures var executed := Run(roster, steps).executed;
      Lived(roster, steps, step, initial) == Played(step, initial, LiveBatches(executed), 1, |executed| + 1)
  {
    if steps != [] {
      var front := steps[..|steps| - 1];
      var before := Run(roster, front);
      LivedIsPlayed(roster, front, step, initial);
      ExecutedEachTick(roster, front);
      LivedNext(roster, steps, step, initial);
      hide *;
      PlayedOneMore(before.executed, NextBatch(before.queue), step, initial);
    }
  }

  lemma ExecutedEachTick(roster: set<PlayerId>, steps: seq<Step>)
    ensures |Run(roster, steps).executed| == Run(roster, steps).queue.tick
  {
    RunKeeps(roster, steps);
    hide Run;
  }

  // With any step function, replaying any shuffling of the recorded log ends in the state the
  // live loop reached.
  lemma ReplayReproduces<S>(roster: set<PlayerId>, steps: seq<Step>, log: seq<Command>,
      step: (S, nat, seq<Command>) -> S, initial: S)
    requires multiset(log) == multiset(CommandsOf(Run(roster, steps).queue.entries))
    ensures var end := Run(roster, steps).queue.tick;
      Played(step, initial, Batches(log, StartTick(0), end), 1, end + 1) == Lived(roster, steps, step, initial)
  {
    var tr := Run(roster, steps);
    var end := tr.queue.tick;
    ExecutedEachTick(roster, steps);
    LivedIsPlayed(roster, steps, step, initial);
    hide Inv, Normalized, FiledUnder, StableSorted, Run;
    forall tick: nat | 1 <= tick < end + 1
      ensures Batches(log, StartTick(0), end)(tick) == LiveBatches(tr.executed)(tick)
    {
      ReplayedBatches(roster, steps, log, end, tick);
    }
    hide Batches, LiveBatches;
    PlayedAgree(step, initial, Batches(log, StartTick(0), end), LiveBatches(tr.executed), 1, end + 1);
  }
}
