// The day and night clock and its catch-up loop (internal/gamecore/phase/manager.go).

module Phase {
  import opened Arithmetic
  import opened State

  const MAX_DAY_NIGHT_CYCLES: uint8 := 6

  datatype Config = Config(dayTicks: nat, nightTicks: nat, maxCycles: uint8) {
    function Normalized(): (c: Config)
      ensures c.dayTicks > 0 && c.nightTicks > 0 && c.maxCycles > 0
    {
      Config(if dayTicks == 0 then 1 else dayTicks, if nightTicks == 0 then 1 else nightTicks,
             if maxCycles == 0 then MAX_DAY_NIGHT_CYCLES else maxCycles)
    }

    function Period(): nat { Normalized().dayTicks + Normalized().nightTicks }
  }

  datatype Transition = Transition(was: PhaseType, becomes: PhaseType, startTick: nat, endTick: nat, cycle: uint8)

  datatype Clock = Clock(phase: PhaseState, cycles: uint8)

  function Initial(config: Config, startTick: nat): PhaseState {
    var start := if startTick == 0 then 1 else startTick;
    PhaseState(Day, start, start + config.Normalized().dayTicks)
  }

  // One turn of the clock: the next phase starts where this one ends.
  function Turn(c: Clock, config: Config): Transition {
    var n := config.Normalized();
    if c.phase.current == Night
    then Transition(Night, Day, c.phase.endsTick, c.phase.endsTick + n.dayTicks,
                    if c.cycles < n.maxCycles then c.cycles + 1 else c.cycles)
    else Transition(c.phase.current, Night, c.phase.endsTick, c.phase.endsTick + n.nightTicks, c.cycles)
  }

  function Turned(c: Clock, config: Config): Clock {
    var t := Turn(c, config);
    Clock(PhaseState(t.becomes, t.startTick, t.endTick), t.cycle)
  }

  function Advanced(c: Clock, tick: nat, config: Config): Clock
    decreases tick + 1 - c.phase.endsTick
  {
    if tick < c.phase.endsTick then c else Advanced(Turned(c, config), tick, config)
  }

  function Transitions(c: Clock, tick: nat, config: Config): seq<Transition>
    decreases tick + 1 - c.phase.endsTick
  {
    if tick < c.phase.endsTick then [] else [Turn(c, config)] + Transitions(Turned(c, config), tick, config)
  }

  // The part of the game state that the clock drives. The hooks called at each transition write
  // other fields.
  class Game {
    var phase: PhaseState
    var cycleCount: uint8

    ghost function View(): Clock
      reads this
    {
      Clock(phase, cycleCount)
    }

    method Advance(currentTick: nat, config: Config) returns (transitions: seq<Transition>)
      modifies this
      ensures View() == Advanced(old(View()), currentTick, config)
      ensures transitions == Transitions(old(View()), currentTick, config)
      ensures currentTick < phase.endsTick
    {
      var normalized := config.Normalized();
      transitions := [];
      while currentTick >= phase.endsTick
        invariant Advanced(View(), currentTick, config) == Advanced(old(View()), currentTick, config)
        invariant transitions + Transitions(View(), currentTick, config)
             == Transitions(old(View()), currentTick, config)
        decreases currentTick + 1 - phase.endsTick
      {
        ghost var before := View();
        var nextPhase, duration := Night, normalized.nightTicks;
        if phase.current == Night {
          nextPhase, duration := Day, normalized.dayTicks;
          if cycleCount < normalized.maxCycles { cycleCount := cycleCount + 1; }
        }
        var transition := Transition(phase.current, nextPhase, phase.endsTick, phase.endsTick + duration, cycleCount);
        phase := PhaseState(nextPhase, transition.startTick, transition.endTick);
        assert transition == Turn(before, config) && View() == Turned(before, config);
        transitions := transitions + [transition];
      }
    }
  }

  // ---- the chain of transitions ----

  // Contiguous in time, alternating between day and night, from one clock to the other.
  ghost predicate Chain(a: Clock, ts: seq<Transition>, b: Clock) {
    && (forall i :: 0 <= i < |ts| ==> ts[i].was != ts[i].becomes && ts[i].startTick < ts[i].endTick)
    && (forall i :: 0 < i < |ts| ==> ts[i].was == ts[i - 1].becomes && ts[i].startTick == ts[i - 1].endTick)
    && (ts == [] ==> a == b)
    && (ts != [] ==>
         && ts[0].was == a.phase.current && ts[0].startTick == a.phase.endsTick
         && var last := ts[|ts| - 1];
         && b == Clock(PhaseState(last.becomes, last.startTick, last.endTick), last.cycle))
  }

  lemma {:induction false} TransitionsChain(c: Clock, tick: nat, config: Config)
    ensures Chain(c, Transitions(c, tick, config), Advanced(c, tick, config))
    ensures tick < Advanced(c, tick, config).phase.endsTick
    ensures forall i :: 0 <= i < |Transitions(c, tick, config)| ==> Transitions(c, tick, config)[i].startTick <= tick
    decreases tick + 1 - c.phase.endsTick
  {
    if tick >= c.phase.endsTick {
      TransitionsChain(Turned(c, config), tick, config);
    }
  }

  // Catching up in two goes is catching up in one.
  lemma {:induction false} AdvanceInStages(c: Clock, t1: nat, t2: nat, config: Config)
    requires t1 <= t2
    ensures Advanced(Advanced(c, t1, config), t2, config) == Advanced(c, t2, config)
    ensures Transitions(c, t1, config) + Transitions(Advanced(c, t1, config), t2, config) == Transitions(c, t2, config)
    decreases t1 + 1 - c.phase.endsTick
  {
    if t1 >= c.phase.endsTick {
      AdvanceInStages(Turned(c, config), t1, t2, config);
    }
  }

  // ---- what the clock shows at a tick ----

  // The clock during the k-th cycle of a match that started at `start`.
  function During(config: Config, start: nat, k: nat, current: PhaseType): Clock {
    var n := config.Normalized();
    var dawn := start + k * config.Period();
    Clock(if current == Day then PhaseState(Day, dawn, dawn + n.dayTicks)
          else PhaseState(Night, dawn + n.dayTicks, dawn + config.Period()),
          if k < n.maxCycles then k else n.maxCycles)
  }

  lemma NextCycle(config: Config, start: nat, k: nat)
    ensures Turned(During(config, start, k, Day), config) == During(config, start, k, Night)
    ensures Turned(During(config, start, k, Night), config) == During(config, start, k + 1, Day)
  {
    assert (k + 1) * config.Period() == k * config.Period() + config.Period();
  }

  // From any reachable clock, catching up ends in the cycle and phase whose window holds the tick.
  lemma {:induction false} AdvancedDuring(config: Config, start: nat, k: nat, current: PhaseType, tick: nat)
    returns (k': nat, current': PhaseType)
    requires During(config, start, k, current).phase.startedTick <= tick
    ensures Advanced(During(config, start, k, current), tick, config) == During(config, start, k', current')
    ensures During(config, start, k', current').phase.startedTick <= tick
        < During(config, start, k', current').phase.endsTick
    decreases tick + 1 - During(config, start, k, current).phase.endsTick
  {
    var c := During(config, start, k, current);
    if tick < c.phase.endsTick {
      k', current' := k, current;
    } else {
      NextCycle(config, start, k);
      if current == Day {
        k', current' := AdvancedDuring(config, start, k, Night, tick);
      } else {
        k', current' := AdvancedDuring(config, start, k + 1, Day, tick);
      }
    }
  }

  // A match started at `start` with no cycles counted: at any tick from then on it is day
  // exactly for the first day-length of every period, and the cycles counted are the whole
  // periods elapsed, up to the maximum.
  lemma ClockAt(config: Config, start: nat, tick: nat)
    requires 1 <= start <= tick
    ensures var c := Advanced(Clock(Initial(config, start), 0), tick, config);
      var elapsed := tick - start;
      && (c.phase.current == Day <==> elapsed % config.Period() < config.Normalized().dayTicks)
      && c.phase.startedTick <= tick < c.phase.endsTick
      && c.cycles == (if elapsed / config.Period() < config.Normalized().maxCycles
                      then elapsed / config.Period() else config.Normalized().maxCycles)
  {
    assert During(config, start, 0, Day) == Clock(Initial(config, start), 0);
    var k, current := AdvancedDuring(config, start, 0, Day, tick);
    QuotientUnique(tick - start, config.Period(), k, tick - start - k * config.Period());
  }
}
