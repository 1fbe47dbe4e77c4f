// Re-running a recorded input log (internal/gamecore/determinism/replay.go).

module Replay {
  import opened InputQueue

  function Keys(commands: seq<Command>): set<(PlayerId, nat)> {
    set c | c in commands :: (c.player, c.clientSeq)
  }

  // The first command of every (player, client sequence) pair.
  function Deduped(commands: seq<Command>): seq<Command> {
    if commands == [] then []
    else
      var n := |commands| - 1;
      Deduped(commands[..n]) +
      (if (commands[n].player, commands[n].clientSeq) in Keys(commands[..n]) then [] else [commands[n]])
  }

  function Normalized(commands: seq<Command>): seq<Command> { Deduped(StableSorted(commands)) }

  function EffectiveTick(c: Command, start: nat): nat { if c.targetTick < start then start else c.targetTick }

  // What scheduling files under one tick.
  function FiledUnder(commands: seq<Command>, start: nat, end: nat, tick: nat): seq<Command> {
    if commands == [] then []
    else
      var n := |commands| - 1;
      FiledUnder(commands[..n], start, end, tick) +
      (if EffectiveTick(commands[n], start) == tick && tick <= end then [commands[n].(targetTick := tick)] else [])
  }

  // The state after the ticks start..upTo-1, each step given its batch.
  function Played<S>(step: (S, nat, seq<Command>) -> S, initial: S, batches: nat -> seq<Command>, start: nat,
      upTo: nat): S
    decreases upTo
  {
    if upTo <= start then initial
    else step(Played(step, initial, batches, start, upTo - 1), upTo - 1, batches(upTo - 1))
  }

  // The batch each tick of a replay of the log is given.
  function Batches(log: seq<Command>, start: nat, end: nat): nat -> seq<Command> {
    (tick: nat) => StableSorted(FiledUnder(Normalized(log), start, end, tick))
  }

  function StartTick(configured: nat): nat { if configured == 0 then 1 else configured }

  lemma NextDeduped(front: seq<Command>, c: Command)
    ensures Keys(front + [c]) == Keys(front) + {(c.player, c.clientSeq)}
    ensures Deduped(front + [c]) == Deduped(front) + (if (c.player, c.clientSeq) in Keys(front) then [] else [c])
  {
    assert (front + [c])[..|front|] == front;
  }

  lemma NothingDeduped()
    ensures Keys([]) == {} && Deduped([]) == []
  {
  }

  method NormalizeInputLog(commands: seq<Command>) returns (deduped: seq<Command>)
    ensures deduped == Normalized(commands)
  {
    hide StableSorted, Deduped, Keys;
    var ordered := StableSorted(commands);
    NothingDeduped();
    deduped := [];
    var seen: set<(PlayerId, nat)> := {};
    for i := 0 to |ordered|
      invariant deduped == Deduped(ordered[..i])
      invariant seen == Keys(ordered[..i])
    {
      var key := (ordered[i].player, ordered[i].clientSeq);
      assert ordered[..i + 1] == ordered[..i] + [ordered[i]];
      NextDeduped(ordered[..i], ordered[i]);
      if key !in seen {
        seen := seen + {key};
        deduped := deduped + [ordered[i]];
      }
    }
    assert ordered[..|ordered|] == ordered;
  }

  method ScheduleByTick(commands: seq<Command>, start: nat, end: nat) returns (byTick: map<nat, seq<Command>>)
    ensures forall tick :: At(byTick, tick, []) == FiledUnder(commands, start, end, tick)
  {
    byTick := map[];
    for i := 0 to |commands|
      invariant forall tick :: At(byTick, tick, []) == FiledUnder(commands[..i], start, end, tick)
    {
      assert commands[..i + 1][..i] == commands[..i];
      var target := commands[i].targetTick;
      if target == 0 { target := start; }
      if target < start { target := start; }
      if target > end { continue; }
      byTick := byTick[target := At(byTick, target, []) + [commands[i].(targetTick := target)]];
    }
    assert commands[..|commands|] == commands;
  }

  method Run<S>(startTick: nat, endTick: nat, initial: S, commands: seq<Command>, step: (S, nat, seq<Command>) -> S)
    returns (state: S)
    ensures state == Played(step, initial,
        Batches(commands, StartTick(startTick), endTick),
        StartTick(startTick), endTick + 1)
  {
    var start := if startTick == 0 then 1 else startTick;
    hide StableSorted, FiledUnder, Normalized;
    state := initial;
    ghost var batches := Batches(commands, StartTick(startTick), endTick);
    if endTick < start { return; }
    var normalized := NormalizeInputLog(commands);
    var scheduled := ScheduleByTick(normalized, start, endTick);
    var tick := start;
    while tick <= endTick
      invariant start <= tick <= endTick + 1
      invariant state == Played(step, initial, batches, start, tick)
    {
      var commandsForTick := StableSorted(At(scheduled, tick, []));
      assert commandsForTick == batches(tick);
      state := step(state, tick, commandsForTick);
      tick := tick + 1;
    }
  }

  // Batches that agree tick by tick play to the same state.
  lemma {:induction false} PlayedAgree<S>(step: (S, nat, seq<Command>) -> S, initial: S,
      a: nat -> seq<Command>, b: nat -> seq<Command>, start: nat, upTo: nat)
    requires forall tick :: start <= tick < upTo ==> a(tick) == b(tick)
    ensures Played(step, initial, a, start, upTo) == Played(step, initial, b, start, upTo)
  {
    if upTo > start { PlayedAgree(step, initial, a, b, start, upTo - 1); }
  }

  lemma NewKey(commands: seq<Command>, n: nat)
    requires n < |commands|
    requires forall i :: 0 <= i < n ==>
      (commands[i].player, commands[i].clientSeq) != (commands[n].player, commands[n].clientSeq)
    ensures (commands[n].player, commands[n].clientSeq) !in Keys(commands[..n])
  {
  }

  // A log that repeats no (player, client sequence) pair loses nothing to deduplication.
  lemma {:induction false} DedupedDistinct(commands: seq<Command>)
    requires forall i, j :: 0 <= i < j < |commands| ==>
      (commands[i].player, commands[i].clientSeq) != (commands[j].player, commands[j].clientSeq)
    ensures Deduped(commands) == commands
  {
    if commands != [] {
      var n := |commands| - 1;
      DedupedDistinct(commands[..n]);
      NewKey(commands, n);
      hide Keys;
      assert commands == commands[..n] + [commands[n]];
    }
  }
}
