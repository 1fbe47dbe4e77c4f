// Ability cooldowns and daily limits (internal/server/game/manager.go,
// internal/gamecore/abilities/framework.go). The catalogue of abilities is a parameter.

module Abilities {
  import opened Records
  import opened State
  import opened Phase

  type Ability = nat
  type Key = (PlayerId, Ability)

  datatype Spec = Spec(cooldownSeconds: nat, oncePerDay: bool, dailyUseLimit: nat)
  datatype Rules = Rules(specs: map<Ability, Spec>, tickRateHz: nat) {
    function CooldownTicks(a: Ability): nat {
      if a !in specs || tickRateHz == 0 || specs[a].cooldownSeconds == 0
        then 0 else specs[a].cooldownSeconds * tickRateHz
    }

    function DailyLimit(a: Ability): nat {
      if a !in specs then 0
      else if specs[a].dailyUseLimit > 0 then specs[a].dailyUseLimit
      else if specs[a].oncePerDay then 1 else 0
    }
  }

  datatype DayUse = DayUse(dayStart: nat, count: nat)

  // The tables a session keeps, keyed by player and ability.
  datatype Ledger = Ledger(cooldownUntil: map<Key, nat>, dailyUsage: map<Key, DayUse>)

  function Until(l: Ledger, k: Key): nat { if k in l.cooldownUntil then l.cooldownUntil[k] else 0 }
  function Usage(l: Ledger, k: Key): DayUse { if k in l.dailyUsage then l.dailyUsage[k] else DayUse(0, 0) }

  predicate MayUse(l: Ledger, rules: Rules, tick: nat, phase: PhaseState, k: Key) {
    && (Until(l, k) == 0 || tick >= Until(l, k))
    && (rules.DailyLimit(k.1) == 0 || (
         && phase.current == Day && phase.startedTick != 0
         && (Usage(l, k).dayStart != phase.startedTick || Usage(l, k).count < rules.DailyLimit(k.1))))
  }

  function Registered(l: Ledger, rules: Rules, tick: nat, phase: PhaseState, k: Key): Ledger {
    var cooled := if rules.CooldownTicks(k.1) > 0
      then l.(cooldownUntil := l.cooldownUntil[k := tick + rules.CooldownTicks(k.1)]) else l;
    if rules.DailyLimit(k.1) > 0 && phase.current == Day then
      var count := if Usage(l, k).dayStart == phase.startedTick then Usage(l, k).count else 0;
      cooled.(dailyUsage := l.dailyUsage[k := DayUse(phase.startedTick, count + 1)])
    else cooled
  }

  class Session {
    const rules: Rules
    var tickId: nat
    var phase: PhaseState
    var cooldownUntil: map<Key, nat>
    var dailyUsage: map<Key, DayUse>

    constructor (rules: Rules, phase: PhaseState)
      ensures this.rules == rules && tickId == 0 && this.phase == phase
      ensures View() == Ledger(map[], map[])
    {
      this.rules, tickId, this.phase, cooldownUntil, dailyUsage := rules, 0, phase, map[], map[];
    }

    ghost function View(): Ledger
      reads this
    {
      Ledger(cooldownUntil, dailyUsage)
    }

    method CanUseAtCurrentTick(p: PlayerId, a: Ability) returns (allowed: bool)
      ensures allowed <==> MayUse(View(), rules, tickId, phase, (p, a))
    {
      var until := if (p, a) in cooldownUntil then cooldownUntil[(p, a)] else 0;
      if until != 0 && tickId < until { return false; }
      var limit := rules.DailyLimit(a);
      if limit == 0 { return true; }
      if phase.current != Day { return false; }
      var dayStart := phase.startedTick;
      if dayStart == 0 { return false; }
      var record := if (p, a) in dailyUsage then dailyUsage[(p, a)] else DayUse(0, 0);
      if record.dayStart != dayStart { return true; }
      return record.count < limit;
    }

    method RegisterUse(p: PlayerId, a: Ability)
      modifies this`cooldownUntil, this`dailyUsage
      ensures View() == Registered(old(View()), rules, tickId, phase, (p, a))
    {
      var cooldown := rules.CooldownTicks(a);
      if cooldown > 0 { cooldownUntil := cooldownUntil[(p, a) := tickId + cooldown]; }
      var limit := rules.DailyLimit(a);
      if limit > 0 && phase.current == Day {
        var record := if (p, a) in dailyUsage then dailyUsage[(p, a)] else DayUse(0, 0);
        if record.dayStart != phase.startedTick { record := DayUse(phase.startedTick, 0); }
        dailyUsage := dailyUsage[(p, a) := record.(count := record.count + 1)];
      }
    }

    // `takes` says whether the ability found a target and had an effect.
    method UseAbility(p: PlayerId, a: Ability, takes: bool) returns (used: bool)
      modifies this`cooldownUntil, this`dailyUsage
      ensures used <==> MayUse(old(View()), rules, tickId, phase, (p, a)) && takes
      ensures View() == if used then Registered(old(View()), rules, tickId, phase, (p, a)) else old(View())
    {
      var allowed := CanUseAtCurrentTick(p, a);
      if !allowed { return false; }
      if !takes { return false; }
      RegisterUse(p, a);
      return true;
    }
  }

  // ---- whole runs ----

  // A successful use: by whom, of what, at which tick, in the phase that started when.
  datatype Use = Use(key: Key, tick: nat, phase: PhaseState)

  datatype Run = Run(tick: nat, clock: Clock, ledger: Ledger, uses: seq<Use>)

  // The counter goes up, the clock catches up, or somebody tries an ability.
  datatype Step = Tick | CatchUp | Try(key: Key, takes: bool)

  function After(r: Run, step: Step, rules: Rules, config: Config): Run {
    match step
    case Tick => r.(tick := r.tick + 1)
    case CatchUp => r.(clock := Advanced(r.clock, r.tick, config))
    case Try(key, takes) =>
      if MayUse(r.ledger, rules, r.tick, r.clock.phase, key) && takes
      then r.(ledger := Registered(r.ledger, rules, r.tick, r.clock.phase, key),
              uses := r.uses + [Use(key, r.tick, r.clock.phase)])
      else r
  }

  function Played(steps: seq<Step>, rules: Rules, config: Config): Run {
    if steps == [] then Run(0, Clock(Initial(config, 1), 0), Ledger(map[], map[]), [])
    else After(Played(steps[..|steps| - 1], rules, config), steps[|steps| - 1], rules, config)
  }

  // The uses of one ability by one player attributed to the day that started at a tick.
  function UsesOn(uses: seq<Use>, key: Key, dayStart: nat): nat {
    if uses == [] then 0
    else
      var last := uses[|uses| - 1];
      UsesOn(uses[..|uses| - 1], key, dayStart) +
      (if last.key == key && last.phase.current == Day && last.phase.startedTick == dayStart then 1 else 0)
  }

  ghost predicate Spaced(uses: seq<Use>, rules: Rules) {
    forall i, j :: 0 <= i < j < |uses| && uses[i].key == uses[j].key ==>
      uses[j].tick >= uses[i].tick + rules.CooldownTicks(uses[i].key.1)
  }

  ghost predicate Within(uses: seq<Use>, rules: Rules) {
    forall key: Key, day :: rules.DailyLimit(key.1) > 0 ==> UsesOn(uses, key, day) <= rules.DailyLimit(key.1)
  }

  // The cooldown table covers every past use.
  ghost predicate CooldownKept(r: Run, rules: Rules) {
    forall i :: 0 <= i < |r.uses| ==>
      var u := r.uses[i];
      && u.tick <= r.tick
      && (rules.CooldownTicks(u.key.1) > 0 ==> Until(r.ledger, u.key) >= u.tick + rules.CooldownTicks(u.key.1))
  }

  // The usage table counts the latest day's uses, and nobody used anything on a later day.
  ghost predicate UsageKept(uses: seq<Use>, ledger: Ledger, phaseStart: nat, rules: Rules) {
    forall key: Key, day: nat :: rules.DailyLimit(key.1) > 0 ==> CountKept(uses, ledger, phaseStart, key, day)
  }

  ghost predicate CountKept(uses: seq<Use>, ledger: Ledger, phaseStart: nat, key: Key, day: nat) {
    var usage := Usage(ledger, key);
    && usage.dayStart <= phaseStart
    && (day > usage.dayStart ==> UsesOn(uses, key, day) == 0)
    && (day == usage.dayStart && day > 0 ==> UsesOn(uses, key, day) == usage.count)
  }

  ghost predicate Inv(r: Run, rules: Rules) {
    && Spaced(r.uses, rules) && Within(r.uses, rules) && CooldownKept(r, rules)
    && UsageKept(r.uses, r.ledger, r.clock.phase.startedTick, rules)
    && 1 <= r.clock.phase.startedTick <= r.clock.phase.endsTick
  }

  // Catching up never moves the start of the phase back.
  lemma {:induction false} AdvancedLater(c: Clock, tick: nat, config: Config)
    requires c.phase.startedTick <= c.phase.endsTick
    ensures var later := Advanced(c, tick, config).phase;
      c.phase.startedTick <= later.startedTick <= later.endsTick
    decreases tick + 1 - c.phase.endsTick
  {
    if tick >= c.phase.endsTick { AdvancedLater(Turned(c, config), tick, config); }
  }

  lemma UsesAppend(uses: seq<Use>, u: Use, key: Key, day: nat)
    ensures UsesOn(uses + [u], key, day) == UsesOn(uses, key, day)
      + (if u.key == key && u.phase.current == Day && u.phase.startedTick == day then 1 else 0)
  {
    assert (uses + [u])[..|uses|] == uses;
  }

  lemma TryKeepsCooldown(r: Run, key: Key, rules: Rules)
    requires Spaced(r.uses, rules) && CooldownKept(r, rules)
    requires MayUse(r.ledger, rules, r.tick, r.clock.phase, key)
    ensures var r' := r.(ledger := Registered(r.ledger, rules, r.tick, r.clock.phase, key),
                         uses := r.uses + [Use(key, r.tick, r.clock.phase)]);
      Spaced(r'.uses, rules) && CooldownKept(r', rules)
  {
  }

  lemma TryKeepsUsage(uses: seq<Use>, ledger: Ledger, u: Use, rules: Rules)
    requires UsageKept(uses, ledger, u.phase.startedTick, rules) && Within(uses, rules) && u.phase.startedTick >= 1
    requires MayUse(ledger, rules, u.tick, u.phase, u.key)
    ensures UsageKept(uses + [u], Registered(ledger, rules, u.tick, u.phase, u.key), u.phase.startedTick, rules)
    ensures Within(uses + [u], rules)
  {
    hide UsesOn;
    forall key: Key, day: nat | rules.DailyLimit(key.1) > 0
      ensures CountKept(uses + [u], Registered(ledger, rules, u.tick, u.phase, u.key), u.phase.startedTick, key, day)
      ensures UsesOn(uses + [u], key, day) <= rules.DailyLimit(key.1)
    {
      UsesAppend(uses, u, key, day);
      assert CountKept(uses, ledger, u.phase.startedTick, key, day);
    }
  }

  lemma StillKept(uses: seq<Use>, ledger: Ledger, phaseStart: nat, later: nat, rules: Rules)
    requires UsageKept(uses, ledger, phaseStart, rules) && phaseStart <= later
    ensures UsageKept(uses, ledger, later, rules)
  {
    forall key: Key, day: nat | rules.DailyLimit(key.1) > 0 ensures CountKept(uses, ledger, later, key, day) {
      assert CountKept(uses, ledger, phaseStart, key, day);
    }
  }

  lemma StepKeeps(r: Run, step: Step, rules: Rules, config: Config)
    requires Inv(r, rules)
    ensures Inv(After(r, step, rules, config), rules)
  {
    match step
    case Tick =>
    case CatchUp =>
      AdvancedLater(r.clock, r.tick, config);
      StillKept(r.uses, r.ledger, r.clock.phase.startedTick,
              Advanced(r.clock, r.tick, config).phase.startedTick, rules);
    case Try(key, takes) =>
      if MayUse(r.ledger, rules, r.tick, r.clock.phase, key) {
        TryKeepsCooldown(r, key, rules);
        TryKeepsUsage(r.uses, r.ledger, Use(key, r.tick, r.clock.phase), rules);
      }
  }

  lemma {:induction false} PlayedKeeps(steps: seq<Step>, rules: Rules, config: Config)
    ensures Inv(Played(steps, rules, config), rules)
  {
    hide Inv, After;
    if steps == [] {
      NothingUsed(rules, config);
    } else {
      PlayedKeeps(steps[..|steps| - 1], rules, config);
      StepKeeps(Played(steps[..|steps| - 1], rules, config), steps[|steps| - 1], rules, config);
    }
  }

  lemma NothingUsed(rules: Rules, config: Config)
    ensures Inv(Run(0, Clock(Initial(config, 1), 0), Ledger(map[], map[]), []), rules)
  {
  }

  // Over any run two uses of one ability by one player are at least its cooldown apart, and the
  // uses on any one day stay within its daily limit.
  lemma UsesSpacedAndLimited(steps: seq<Step>, rules: Rules, config: Config, i: nat, j: nat, key: Key, day: nat)
    requires i < j < |Played(steps, rules, config).uses|
    ensures var uses := Played(steps, rules, config).uses;
      && (uses[i].key == uses[j].key ==> uses[j].tick >= uses[i].tick + rules.CooldownTicks(uses[i].key.1))
      && (rules.DailyLimit(key.1) > 0 ==> UsesOn(uses, key, day) <= rules.DailyLimit(key.1))
  {
    PlayedKeeps(steps, rules, config);
  }
}
