// Whole matches of item operations: no item appears from nowhere, and the golden bullet is
// bought at most once and exists at most once (internal/server/game/manager.go).

module Economy {
  import opened Records
  import opened State
  import opened Inventory
  import opened Holdings
  import opened Trade
  import Carriers

  // The holdings of a match: players, cell stashes and dropped items. `bought` counts golden
  // bullets ever purchased.
  datatype Economy = Economy(
    players: seq<Held>, stashes: seq<Held>, dropped: seq<ItemStack>, sold: bool, bought: nat)

  // The slot count every loadout and day restore gives.
  const SLOTS: nat := 3

  datatype Step =
    | Buy(p: nat, item: Item)
    | Transfer(p: nat, q: nat, item: Item, amount: uint8)
    | Deposit(p: nat, c: nat, item: Item, amount: uint8)
    | Withdraw(p: nat, c: nat, item: Item, amount: uint8)
    | Drop(p: nat, item: Item, amount: uint8)
    | PickUp(p: nat, k: nat)
    | CraftItem(p: nat, output: Item)
    // Goods from nowhere: bribes, scrap bundles, sidearms, authority ammunition. None of them
    // offers the golden bullet.
    | Receive(p: nat, item: Item, amount: uint8)
    // Goods destroyed: a golden round fired, a confiscation, an eviction for a sidearm.
    | Discard(p: nat, item: Item, amount: uint8)
    // The day restore: the stacks added one by one to an empty inventory.
    | Refit(p: nat)

  ghost predicate GoldenInMatch(e: Economy) {
    (exists k :: 0 <= k < |e.players| && HoldsGolden(e.players[k])) || GoldenDropped(e.dropped)
  }

  ghost predicate Admits(e: Economy, item: Item) {
    OfferFor(item).Some? && (item == GOLDEN_BULLET ==> !e.sold && !GoldenInMatch(e))
  }

  // Player p's holdings become t.
  function Put(e: Economy, p: nat, t: Held): Economy
    requires p < |e.players|
  {
    e.(players := e.players[p := t])
  }

  ghost function After(e: Economy, step: Step): Economy {
    if step.p >= |e.players| then e
    else
      var t := e.players[step.p];
      match step
      case Buy(p, item) =>
        if Admits(e, item) && CanAdd(t, item, 1, SLOTS)
        then Put(e, p, Added(t, item, 1)).(sold := e.sold || item == GOLDEN_BULLET,
                                           bought := e.bought + if item == GOLDEN_BULLET then 1 else 0)
        else e
      case Transfer(p, q, item, amount) =>
        if q < |e.players| && q != p && CanTake(t, item, amount) && CanAdd(e.players[q], item, amount, SLOTS)
        then Put(Put(e, p, Taken(t, item, amount)), q, Added(e.players[q], item, amount))
        else e
      case Deposit(p, c, item, amount) =>
        if c >= |e.stashes| || !CanRemove(t, item, amount, SLOTS) then e
        else if CanAdd(e.stashes[c], item, amount, BASE_STACK_LIMIT)
        then Put(e, p, Taken(t, item, amount)).(stashes := e.stashes[c := Added(e.stashes[c], item, amount)])
        else Put(e, p, AfterRefusal(t, item, amount, SLOTS))
      case Withdraw(p, c, item, amount) =>
        if c < |e.stashes| && CanRemove(e.stashes[c], item, amount, BASE_STACK_LIMIT) && CanAdd(t, item, amount, SLOTS)
        then Put(e, p, Added(t, item, amount)).(stashes := e.stashes[c := Taken(e.stashes[c], item, amount)])
        else e
      case Drop(p, item, amount) =>
        if CanRemove(t, item, amount, SLOTS)
        then Put(e, p, Taken(t, item, amount)).(dropped := e.dropped + [Record(item, amount)])
        else e
      case PickUp(p, k) =>
        if k < |e.dropped| && CanAdd(t, e.dropped[k].id, e.dropped[k].body, SLOTS)
        then Put(e, p, Added(t, e.dropped[k].id, e.dropped[k].body)).(dropped := e.dropped[..k] + e.dropped[k + 1..])
        else e
      case CraftItem(p, output) =>
        if Crafted(t, output, SLOTS).Some? then Put(e, p, Crafted(t, output, SLOTS).value) else e
      case Receive(p, item, amount) =>
        if item != GOLDEN_BULLET && CanAdd(t, item, amount, SLOTS) then Put(e, p, Added(t, item, amount)) else e
      case Discard(p, item, amount) =>
        if CanRemove(t, item, amount, SLOTS) then Put(e, p, Taken(t, item, amount)) else e
      case Refit(p) => Put(e, p, Refitted(Listing(t), SLOTS))
  }

  ghost function Run(start: Economy, steps: seq<Step>): Economy {
    if steps == [] then start else After(Run(start, steps[..|steps| - 1]), steps[|steps| - 1])
  }

  // ---- sums ----

  function Sum(list: seq<Held>, item: Item): nat {
    if list == [] then 0 else Sum(list[..|list| - 1], item) + Amount(list[|list| - 1], item)
  }

  function InMatch(e: Economy, item: Item): nat {
    Sum(e.players, item) + Sum(e.stashes, item) + Total(e.dropped, item)
  }

  ghost predicate AllProper(list: seq<Held>) { forall k :: 0 <= k < |list| ==> Proper(list[k]) }

  lemma {:induction false} SumUpdate(list: seq<Held>, k: nat, t: Held, item: Item)
    requires k < |list|
    ensures Sum(list[k := t], item) == Sum(list, item) - Amount(list[k], item) + Amount(t, item)
  {
    var n := |list| - 1;
    if k < n {
      assert list[k := t][..n] == list[..n][k := t];
      SumUpdate(list[..n], k, t, item);
    } else {
      assert list[k := t][..n] == list[..n];
    }
  }

  ghost predicate Sound(e: Economy) {
    && AllProper(e.players) && AllProper(e.stashes)
    && forall k :: 0 <= k < |e.dropped| ==> IsKnown(e.dropped[k].id) && e.dropped[k].body > 0
  }

  lemma PutCounts(e: Economy, p: nat, t: Held, item: Item)
    requires p < |e.players|
    ensures InMatch(Put(e, p, t), item) == InMatch(e, item) - Amount(e.players[p], item) + Amount(t, item)
  {
    SumUpdate(e.players, p, t, item);
  }

  lemma StashCounts(e: Economy, c: nat, t: Held, item: Item)
    requires c < |e.stashes|
    ensures InMatch(e.(stashes := e.stashes[c := t]), item)
         == InMatch(e, item) - Amount(e.stashes[c], item) + Amount(t, item)
  {
    SumUpdate(e.stashes, c, t, item);
  }

  lemma DropCounts(e: Economy, stack: ItemStack, item: Item)
    ensures InMatch(e.(dropped := e.dropped + [stack]), item)
         == InMatch(e, item) + (if stack.id == item then stack.body else 0)
  {
    TotalAppend(e.dropped, [stack], item);
  }

  lemma PickUpCounts(e: Economy, k: nat, item: Item)
    requires k < |e.dropped|
    ensures InMatch(e.(dropped := e.dropped[..k] + e.dropped[k + 1..]), item)
         == InMatch(e, item) - (if e.dropped[k].id == item then e.dropped[k].body else 0)
  {
    TotalWithout(e.dropped, k, item);
  }

  // ---- moves neither create nor destroy ----

  lemma TransferCounts(e: Economy, step: Step, item: Item)
    requires step.Transfer?
    ensures InMatch(After(e, step), item) == InMatch(e, item)
  {
    var e' := After(e, step);
    hide InMatch;
    if e' != e {
      var t := Taken(e.players[step.p], step.item, step.amount);
      var u := Added(e.players[step.q], step.item, step.amount);
      PutCounts(e, step.p, t, item);
      PutCounts(Put(e, step.p, t), step.q, u, item);
    }
  }

  lemma WithdrawCounts(e: Economy, step: Step, item: Item)
    requires step.Withdraw?
    ensures InMatch(After(e, step), item) == InMatch(e, item)
  {
    var e' := After(e, step);
    hide InMatch;
    if e' != e {
      var t := Added(e.players[step.p], step.item, step.amount);
      PutCounts(e, step.p, t, item);
      StashCounts(Put(e, step.p, t), step.c, Taken(e.stashes[step.c], step.item, step.amount), item);
    }
  }

  lemma DropStepCounts(e: Economy, step: Step, item: Item)
    requires step.Drop?
    ensures InMatch(After(e, step), item) == InMatch(e, item)
  {
    var e' := After(e, step);
    hide InMatch;
    if e' != e {
      var t := Taken(e.players[step.p], step.item, step.amount);
      PutCounts(e, step.p, t, item);
      DropCounts(Put(e, step.p, t), Record(step.item, step.amount), item);
    }
  }

  lemma PickUpStepCounts(e: Economy, step: Step, item: Item)
    requires step.PickUp?
    ensures InMatch(After(e, step), item) == InMatch(e, item)
  {
    var e' := After(e, step);
    hide InMatch;
    if e' != e {
      var t := Added(e.players[step.p], e.dropped[step.k].id, e.dropped[step.k].body);
      PutCounts(e, step.p, t, item);
      PickUpCounts(Put(e, step.p, t), step.k, item);
    }
  }

  // The deposits that lose goods: taken from a player whose stacks do not fit, for a stash
  // without room.
  ghost predicate LosesDeposit(e: Economy, step: Step) {
    && step.Deposit? && step.p < |e.players| && step.c < |e.stashes|
    && CanRemove(e.players[step.p], step.item, step.amount, SLOTS) && !Fits(e.players[step.p], SLOTS)
    && !CanAdd(e.stashes[step.c], step.item, step.amount, BASE_STACK_LIMIT)
  }

  lemma DepositCounts(e: Economy, step: Step, item: Item)
    requires step.Deposit?
    ensures InMatch(After(e, step), item) ==
      InMatch(e, item) - (if LosesDeposit(e, step) && step.item == item then step.amount else 0)
  {
    var e' := After(e, step);
    hide InMatch;
    if step.p < |e.players| && step.c < |e.stashes| && CanRemove(e.players[step.p], step.item, step.amount, SLOTS) {
      var t := Taken(e.players[step.p], step.item, step.amount);
      PutCounts(e, step.p, t, item);
      if CanAdd(e.stashes[step.c], step.item, step.amount, BASE_STACK_LIMIT) {
        StashCounts(Put(e, step.p, t), step.c, Added(e.stashes[step.c], step.item, step.amount), item);
      } else {
        PutCounts(e, step.p, AfterRefusal(e.players[step.p], step.item, step.amount, SLOTS), item);
      }
    }
  }

  predicate IsMove(step: Step) { step.Transfer? || step.Deposit? || step.Withdraw? || step.Drop? || step.PickUp? }

  // Transfers, drops, pickups and stash moves conserve every item in the match, but for a
  // deposit a full stash refuses to an overfull player.
  lemma MovesConserve(e: Economy, step: Step, item: Item)
    requires IsMove(step)
    ensures InMatch(After(e, step), item) ==
      InMatch(e, item) - (if LosesDeposit(e, step) && step.item == item then step.amount else 0)
  {
    hide After, InMatch;
    match step
    case Transfer(_, _, _, _) => TransferCounts(e, step, item);
    case Deposit(_, _, _, _) => DepositCounts(e, step, item);
    case Withdraw(_, _, _, _) => WithdrawCounts(e, step, item);
    case Drop(_, _, _) => DropStepCounts(e, step, item);
    case PickUp(_, _) => PickUpStepCounts(e, step, item);
  }

  // ---- nothing comes from nowhere ----

  // What a step may bring into the match.
  function Brought(step: Step, item: Item): nat {
    match step
    case Buy(_, bought) => if bought == item then 1 else 0
    case CraftItem(_, output) => if output == item then 1 else 0
    case Receive(_, received, amount) => if received == item then amount else 0
    case _ => 0
  }

  lemma RefitCounts(e: Economy, step: Step, item: Item)
    requires step.Refit? && Sound(e)
    ensures InMatch(After(e, step), item) <= InMatch(e, item)
  {
    if step.p < |e.players| {
      var t := e.players[step.p];
      assert Proper(t);
      ListingCanonical(t);
      ListingShape(t);
      RefittedAtMost(Listing(t), SLOTS, item);
      Carriers.CleanTotal(Listing(t), item);
      hide InMatch, Refitted;
      PutCounts(e, step.p, Refitted(Listing(t), SLOTS), item);
    }
  }

  lemma CraftCounts(e: Economy, step: Step, item: Item)
    requires step.CraftItem? && Sound(e)
    ensures InMatch(After(e, step), item) <= InMatch(e, item) + Brought(step, item)
  {
    if step.p < |e.players| && Crafted(e.players[step.p], step.output, SLOTS).Some? {
      var t := e.players[step.p];
      assert Proper(t);
      hide InMatch;
      CraftedExactly(t, step.output, SLOTS);
      hide Crafted;
      PutCounts(e, step.p, Crafted(t, step.output, SLOTS).value, item);
    }
  }

  lemma OtherCounts(e: Economy, step: Step, item: Item)
    requires step.Buy? || step.Receive? || step.Discard?
    ensures InMatch(After(e, step), item) <= InMatch(e, item) + Brought(step, item)
  {
    if step.p < |e.players| {
      var e', t := After(e, step), e.players[step.p];
      hide InMatch;
      if step.Discard? && CanRemove(t, step.item, step.amount, SLOTS) {
        PutCounts(e, step.p, Taken(t, step.item, step.amount), item);
      } else if step.Receive? && CanAdd(t, step.item, step.amount, SLOTS) {
        PutCounts(e, step.p, Added(t, step.item, step.amount), item);
      } else if step.Buy? && CanAdd(t, step.item, 1, SLOTS) {
        PutCounts(e, step.p, Added(t, step.item, 1), item);
        FlagsDoNotCount(Put(e, step.p, Added(t, step.item, 1)), e'.sold, e'.bought, item);
      }
    }
  }

  lemma FlagsDoNotCount(e: Economy, sold: bool, bought: nat, item: Item)
    ensures InMatch(e.(sold := sold, bought := bought), item) == InMatch(e, item)
  {
  }

  lemma NothingFromNowhere(e: Economy, step: Step, item: Item)
    requires Sound(e)
    ensures InMatch(After(e, step), item) <= InMatch(e, item) + Brought(step, item)
  {
    hide After, InMatch, Sound;
    if IsMove(step) { MovesConserve(e, step, item); }
    else if step.Refit? { RefitCounts(e, step, item); }
    else if step.CraftItem? { CraftCounts(e, step, item); }
    else { OtherCounts(e, step, item); }
  }

  // ---- every run ----

  lemma MovedProper(t: Held, item: Item, amount: uint8)
    requires Proper(t) && IsKnown(item)
    ensures amount <= Amount(t, item) ==> Proper(Taken(t, item, amount))
    ensures Amount(t, item) + amount < 256 ==> Proper(Added(t, item, amount))
  {
  }

  lemma MovesSound(e: Economy, step: Step)
    requires Sound(e) && (step.Transfer? || step.Drop? || step.PickUp?)
    ensures Sound(After(e, step))
  {
    if step.p < |e.players| {
      assert Proper(e.players[step.p]);
      if step.PickUp? {
        if step.k < |e.dropped| { MovedProper(e.players[step.p], e.dropped[step.k].id, e.dropped[step.k].body); }
      } else if IsKnown(step.item) {
        MovedProper(e.players[step.p], step.item, step.amount);
        if step.Transfer? && step.q < |e.players| {
          assert Proper(e.players[step.q]);
          MovedProper(e.players[step.q], step.item, step.amount);
        }
      }
      hide Proper, Taken, Added, Fits;
    }
  }

  lemma PutSound(e: Economy, p: nat, t: Held, c: nat, s: Held)
    requires Sound(e) && p < |e.players| && c < |e.stashes| && Proper(t) && Proper(s)
    ensures Sound(Put(e, p, t)) && Sound(Put(e, p, t).(stashes := e.stashes[c := s]))
  {
    hide Proper;
  }

  lemma StashMovesSound(e: Economy, step: Step)
    requires Sound(e) && (step.Deposit? || step.Withdraw?)
    ensures Sound(After(e, step))
  {
    if step.p < |e.players| && step.c < |e.stashes| && IsKnown(step.item) {
      var t, s := e.players[step.p], e.stashes[step.c];
      assert Proper(t) && Proper(s);
      MovedProper(t, step.item, step.amount);
      MovedProper(s, step.item, step.amount);
      hide Sound, Proper, Taken, Added, Fits;
      if step.Deposit? && CanRemove(t, step.item, step.amount, SLOTS) {
        PutSound(e, step.p, AfterRefusal(t, step.item, step.amount, SLOTS), step.c, s);
        if CanAdd(s, step.item, step.amount, BASE_STACK_LIMIT) {
          PutSound(e, step.p, Taken(t, step.item, step.amount), step.c, Added(s, step.item, step.amount));
        }
      } else if step.Withdraw? && CanAdd(t, step.item, step.amount, SLOTS)
        && CanRemove(s, step.item, step.amount, BASE_STACK_LIMIT) {
        PutSound(e, step.p, Added(t, step.item, step.amount), step.c, Taken(s, step.item, step.amount));
      }
    }
  }

  lemma OtherSound(e: Economy, step: Step)
    requires Sound(e) && !IsMove(step)
    ensures Sound(After(e, step))
  {
    if step.p < |e.players| {
      var t := e.players[step.p];
      assert Proper(t);
      match step
      case Buy(p, item) => if IsKnown(item) { MovedProper(t, item, 1); }
      case Receive(p, item, amount) => if IsKnown(item) { MovedProper(t, item, amount); }
      case Discard(p, item, amount) => if IsKnown(item) { MovedProper(t, item, amount); }
      case CraftItem(p, output) => if RecipeFor(output).Some? { CraftedExactly(t, output, SLOTS); }
      case Refit(p) =>
        ListingCanonical(t);
        RefittedAtMost(Listing(t), SLOTS, 0);
      hide Proper, Taken, Added, Fits, Refitted, Crafted, GoldenInMatch;
    }
  }

  // Every golden bullet in the match was bought, and buying one closes the offer for good.
  ghost predicate GoldenInv(e: Economy) {
    Sound(e) && e.bought == (if e.sold then 1 else 0) && InMatch(e, GOLDEN_BULLET) <= e.bought
  }

  lemma StepSound(e: Economy, step: Step)
    requires Sound(e)
    ensures Sound(After(e, step))
  {
    hide After, Sound;
    if IsMove(step) {
      if step.Deposit? || step.Withdraw? { StashMovesSound(e, step); } else { MovesSound(e, step); }
    } else {
      OtherSound(e, step);
    }
  }

  lemma StepKeepsGolden(e: Economy, step: Step)
    requires GoldenInv(e)
    ensures GoldenInv(After(e, step))
  {
    hide After, Sound, InMatch;
    StepSound(e, step);
    NothingFromNowhere(e, step, GOLDEN_BULLET);
    BoughtAsBrought(e, step);
  }

  // A step that changes anything moves the counter by the golden bullets it brings, and sells
  // them at most once.
  lemma BoughtAsBrought(e: Economy, step: Step)
    requires e.bought == (if e.sold then 1 else 0)
    ensures var e' := After(e, step);
      && (e' == e || e'.bought == e.bought + Brought(step, GOLDEN_BULLET))
      && e'.bought == (if e'.sold then 1 else 0)
  {
    hide GoldenInMatch, Refitted, Fits, Taken, Added;
  }

  // Over any whole match the golden bullets in all inventories, stashes and dropped items total
  // at most one, and at most one is ever bought.
  lemma {:induction false} OneGoldenBullet(start: Economy, steps: seq<Step>)
    requires Sound(start) && !start.sold && start.bought == 0 && InMatch(start, GOLDEN_BULLET) == 0
    ensures InMatch(Run(start, steps), GOLDEN_BULLET) <= Run(start, steps).bought <= 1
    ensures GoldenInv(Run(start, steps))
  {
    if steps != [] {
      OneGoldenBullet(start, steps[..|steps| - 1]);
      StepKeepsGolden(Run(start, steps[..|steps| - 1]), steps[|steps| - 1]);
    }
  }

  // ---- capacity ----

  ghost predicate AllFit(e: Economy) {
    && (forall k :: 0 <= k < |e.players| ==> Fits(e.players[k], SLOTS))
    && (forall k :: 0 <= k < |e.stashes| ==> Fits(e.stashes[k], BASE_STACK_LIMIT))
  }

  // A transfer that hands over satchels the giver's other stacks still need.
  ghost predicate Overloads(e: Economy, step: Step) {
    && step.Transfer? && step.p < |e.players| && step.q < |e.players| && step.q != step.p && step.item == SATCHEL
    && CanTake(e.players[step.p], SATCHEL, step.amount)
    && CanAdd(e.players[step.q], SATCHEL, step.amount, SLOTS)
    && |e.players[step.p]| - (if step.amount == e.players[step.p][SATCHEL] then 1 else 0)
       > SLOTS + (e.players[step.p][SATCHEL] - step.amount) * SATCHEL_BONUS
  }

  lemma TransferFits(e: Economy, step: Step)
    requires Sound(e) && AllFit(e) && step.Transfer?
    ensures AllFit(After(e, step)) <==> !Overloads(e, step)
  {
    var e' := After(e, step);
    if e' != e {
      var t := e.players[step.p];
      assert Proper(t) && Fits(t, SLOTS);
      assert Fits(e'.players[step.p], SLOTS) <==> !Overloads(e, step) by {
        if step.item == SATCHEL {
          SatchelGiverFits(t, step.amount, SLOTS);
        } else {
          TakenFits(t, step.item, step.amount, SLOTS);
        }
      }
      hide Fits, Taken, Added, Overloads;
    }
  }

  lemma RemoveFits(t: Held, item: Item, amount: uint8, base: nat)
    requires Proper(t) && CanRemove(t, item, amount, base) && Fits(t, base)
    ensures Fits(Taken(t, item, amount), base)
  {
    if item != SATCHEL { TakenFits(t, item, amount, base); }
  }

  lemma StashMovesFit(e: Economy, step: Step)
    requires Sound(e) && AllFit(e) && (step.Deposit? || step.Withdraw?)
    ensures AllFit(After(e, step))
  {
    if step.p < |e.players| && step.c < |e.stashes| {
      var t, s := e.players[step.p], e.stashes[step.c];
      assert Proper(t) && Proper(s) && Fits(t, SLOTS) && Fits(s, BASE_STACK_LIMIT);
      if CanRemove(t, step.item, step.amount, SLOTS) { RemoveFits(t, step.item, step.amount, SLOTS); }
      if CanRemove(s, step.item, step.amount, BASE_STACK_LIMIT) {
        RemoveFits(s, step.item, step.amount, BASE_STACK_LIMIT);
      }
      hide Fits, Taken, Added, CanRemove;
    }
  }

  lemma OtherFits(e: Economy, step: Step)
    requires Sound(e) && AllFit(e) && !step.Transfer? && !step.Deposit? && !step.Withdraw?
    ensures AllFit(After(e, step))
  {
    if step.p < |e.players| {
      var t := e.players[step.p];
      assert Proper(t) && Fits(t, SLOTS);
      if (step.Drop? || step.Discard?) && CanRemove(t, step.item, step.amount, SLOTS) {
        RemoveFits(t, step.item, step.amount, SLOTS);
      } else if step.CraftItem? && Crafted(t, step.output, SLOTS).Some? {
        CraftedExactly(t, step.output, SLOTS);
      } else if step.Refit? {
        RefittedFits(Listing(t), SLOTS);
      }
      hide Fits, Taken, Added, Crafted, Refitted, CanRemove, GoldenInMatch;
    }
  }

  // From a match in which everybody and every stash is within capacity, a step leaves it so if and
  // only if it is not such a transfer.
  lemma StepFits(e: Economy, step: Step)
    requires Sound(e) && AllFit(e)
    ensures AllFit(After(e, step)) <==> !Overloads(e, step)
    ensures Sound(After(e, step))
  {
    hide After, Sound, AllFit;
    StepSound(e, step);
    if step.Transfer? { TransferFits(e, step); }
    else if step.Deposit? || step.Withdraw? { StashMovesFit(e, step); }
    else { OtherFits(e, step); }
  }

  // Over a whole run capacity holds throughout if and only if no step is such a transfer.
  lemma {:induction false} CapacityExact(start: Economy, steps: seq<Step>)
    requires Sound(start) && AllFit(start)
    ensures (forall n {:trigger steps[..n]} :: 0 <= n <= |steps| ==> AllFit(Run(start, steps[..n])))
      <==> (forall n {:trigger steps[..n]} :: 0 <= n < |steps| ==> !Overloads(Run(start, steps[..n]), steps[n]))
    ensures Sound(Run(start, steps))
  {
    hide After, Sound, AllFit, Overloads;
    if steps != [] {
      var k := |steps| - 1;
      var front := steps[..k];
      CapacityExact(start, front);
      assert forall n :: 0 <= n <= k ==> front[..n] == steps[..n];
      assert steps[..|steps|] == steps && front[..k] == front;
      StepSound(Run(start, front), steps[k]);
      if AllFit(Run(start, front)) { StepFits(Run(start, front), steps[k]); }
    }
  }

  // ---- a run that loses goods ----

  const PORTER: Held := map[BATON := 1, SATCHEL := 1, SHIV := 1, WOOD := 1, KEYS := 1]
  const FULL_STASH: Held := map[BADGE := 1, BULLET := 1, DOOR_STOP := 1, LADDER := 1, PISTOL := 1, SILENCER := 1]
  const NOTHING: Held := map[]

  function Crowded(): Economy { Economy([PORTER, NOTHING], [FULL_STASH], [], false, 0) }

  lemma PairFits(a: Held, b: Held, stash: Held)
    requires Proper(a) && Fits(a, SLOTS) && Proper(b) && Fits(b, SLOTS)
    requires Proper(stash) && Fits(stash, BASE_STACK_LIMIT)
    ensures Sound(Economy([a, b], [stash], [], false, 0)) && AllFit(Economy([a, b], [stash], [], false, 0))
  {
    hide Proper, Fits;
  }

  lemma CrowdedFits()
    ensures Sound(Crowded()) && AllFit(Crowded())
  {
    PorterFits();
    FullStashFits();
    hide Proper, Fits, Sound, AllFit;
    PairFits(PORTER, NOTHING, FULL_STASH);
  }

  lemma PorterFits()
    ensures Proper(PORTER) && Fits(PORTER, SLOTS) && Proper(NOTHING) && Fits(NOTHING, SLOTS)
  {
    assert |PORTER| == 5;
  }

  lemma FullStashFits()
    ensures Proper(FULL_STASH) && Fits(FULL_STASH, BASE_STACK_LIMIT)
  {
    assert Fits(FULL_STASH, BASE_STACK_LIMIT) by { assert |FULL_STASH| == 6; }
    hide Fits;
  }

  lemma SatchelAccepted()
    ensures CanAdd(NOTHING, SATCHEL, 1, SLOTS)
  {
    assert Added(NOTHING, SATCHEL, 1) == map[SATCHEL := 1];
  }

  lemma FullStashRefuses()
    ensures !CanAdd(FULL_STASH, WOOD, 1, BASE_STACK_LIMIT)
  {
    assert |FULL_STASH| == 6;
    WithSize(FULL_STASH, WOOD, 1);
  }

  lemma CrowdedHolds()
    ensures InMatch(Crowded(), WOOD) == 1
  {
    var players, stashes := [PORTER, NOTHING], [FULL_STASH];
    assert players[..1] == [PORTER] && |[PORTER][..0]| == 0 && |stashes[..0]| == 0;
  }

  // A player within capacity hands over the satchel that made room, then deposits into a full
  // stash: an item leaves the match.
  lemma OverfullDepositRun() returns (start: Economy, steps: seq<Step>)
    ensures Sound(start) && AllFit(start) && |steps| == 2 && steps[0].Transfer? && steps[1].Deposit?
    ensures InMatch(start, WOOD) == 1 && InMatch(Run(start, steps), WOOD) == 0
  {
    hide InMatch, Sound, AllFit, Fits, Added;
    var give, store := Transfer(0, 1, SATCHEL, 1), Deposit(0, 0, WOOD, 1);
    start, steps := Crowded(), [give, store];
    CrowdedFits();
    CrowdedHolds();
    SatchelAccepted();
    FullStashRefuses();
    OverfullDepositLoses();
    var middle := After(start, give);
    assert middle.players[0] == Taken(PORTER, SATCHEL, 1) && middle.stashes == [FULL_STASH];
    assert LosesDeposit(middle, store);
    MovesConserve(start, give, WOOD);
    MovesConserve(middle, store, WOOD);
    hide After, LosesDeposit;
    assert steps[..1] == [give] && |[give][..0]| == 0;
    assert Run(start, [give]) == middle;
  }
}
