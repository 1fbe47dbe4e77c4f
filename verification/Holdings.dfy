// What the inventory operations do to the table of held quantities, and the laws of those
// changes: exact arithmetic, undoing, conservation, capacity
// (internal/gamecore/items/inventory.go).

module Holdings {
  import opened Records
  import opened State
  import opened Inventory

  type Held = map<Item, uint8>

  function With(t: Held, item: Item, quantity: uint8): Held {
    if quantity == 0 then t - {item} else t[item := quantity]
  }

  function Added(t: Held, item: Item, amount: uint8): Held
    requires Amount(t, item) + amount < 256
  {
    With(t, item, Amount(t, item) + amount)
  }

  function Taken(t: Held, item: Item, amount: uint8): Held
    requires amount <= Amount(t, item)
  {
    With(t, item, Amount(t, item) - amount)
  }

  function BaseLimit(slots: uint8): nat { if slots > 0 then slots else BASE_STACK_LIMIT }

  function Limit(t: Held, base: nat): nat { base + Amount(t, SATCHEL) * SATCHEL_BONUS }

  // No more stacks than the base limit and three for every satchel carried.
  predicate Fits(t: Held, base: nat) { |t| <= Limit(t, base) }

  predicate CanAdd(t: Held, item: Item, amount: uint8, base: nat) {
    amount > 0 && IsKnown(item) && Amount(t, item) + amount < 256 && Fits(Added(t, item, amount), base)
  }

  predicate CanTake(t: Held, item: Item, amount: uint8) {
    amount > 0 && IsKnown(item) && amount <= Amount(t, item)
  }

  // RemoveItem also refuses to give up a satchel whose stacks would not fit without it.
  predicate CanRemove(t: Held, item: Item, amount: uint8, base: nat) {
    CanTake(t, item, amount) && (item == SATCHEL ==> Fits(Taken(t, item, amount), base))
  }

  // ---- arithmetic ----

  lemma WithProper(t: Held, item: Item, quantity: uint8)
    requires Proper(t) && IsKnown(item)
    ensures Proper(With(t, item, quantity))
    ensures forall i :: Amount(With(t, item, quantity), i) == if i == item then quantity else Amount(t, i)
  {
  }

  lemma SameAmounts(a: Held, b: Held)
    requires Proper(a) && Proper(b) && forall i :: Amount(a, i) == Amount(b, i)
    ensures a == b
  {
    forall i ensures i in a <==> i in b {
      assert Amount(a, i) == Amount(b, i);
    }
    forall i | i in a ensures a[i] == b[i] {
      assert Amount(a, i) == Amount(b, i);
    }
  }

  // Taking back what was added, or adding back what was taken, restores the holdings.
  lemma AddTakeBack(t: Held, item: Item, amount: uint8)
    requires Proper(t) && IsKnown(item)
    ensures Amount(t, item) + amount < 256 ==> Taken(Added(t, item, amount), item, amount) == t
    ensures amount <= Amount(t, item) ==> Added(Taken(t, item, amount), item, amount) == t
  {
    if Amount(t, item) + amount < 256 {
      SameAmounts(Taken(Added(t, item, amount), item, amount), t);
    }
    if amount <= Amount(t, item) {
      SameAmounts(Added(Taken(t, item, amount), item, amount), t);
    }
  }

  // A transfer moves the item and leaves every item's total across the two parties as it was.
  lemma TransferConserves(giver: Held, taker: Held, item: Item, amount: uint8)
    requires Proper(giver) && Proper(taker) && CanTake(giver, item, amount) && Amount(taker, item) + amount < 256
    ensures forall i :: Amount(Taken(giver, item, amount), i) + Amount(Added(taker, item, amount), i)
                     == Amount(giver, i) + Amount(taker, i)
    ensures Amount(Taken(giver, item, amount), item) == Amount(giver, item) - amount
  {
    WithProper(giver, item, Amount(giver, item) - amount);
    WithProper(taker, item, Amount(taker, item) + amount);
  }

  // ---- capacity ----

  lemma RemovedSize(t: Held, item: Item)
    ensures |t - {item}| == |t| - (if item in t then 1 else 0)
  {
    if item in t {
      assert t.Keys == (t - {item}).Keys + {item};
    } else {
      assert t - {item} == t;
    }
  }

  lemma StoredSize(t: Held, item: Item, quantity: uint8)
    ensures |t[item := quantity]| == |t| + (if item in t then 0 else 1)
  {
    assert t[item := quantity].Keys == t.Keys + {item};
  }

  lemma WithSize(t: Held, item: Item, quantity: uint8)
    ensures |With(t, item, quantity)| ==
      |t| + (if item !in t && quantity > 0 then 1 else 0) - (if item in t && quantity == 0 then 1 else 0)
  {
    if quantity == 0 { RemovedSize(t, item); } else { StoredSize(t, item, quantity); }
  }

  // Taking anything but satchels keeps whoever fitted fitting.
  lemma TakenFits(t: Held, item: Item, amount: uint8, base: nat)
    requires Proper(t) && CanTake(t, item, amount) && item != SATCHEL && Fits(t, base)
    ensures Fits(Taken(t, item, amount), base)
  {
    WithSize(t, item, Amount(t, item) - amount);
  }

  // What a satchel giver is left with fits exactly when the stacks that remain do not exceed
  // the limit of the satchels that remain.
  lemma SatchelGiverFits(t: Held, amount: uint8, base: nat)
    requires Proper(t) && CanTake(t, SATCHEL, amount)
    ensures Fits(Taken(t, SATCHEL, amount), base) <==>
      |t| - (if amount == t[SATCHEL] then 1 else 0) <= base + (t[SATCHEL] - amount) * SATCHEL_BONUS
  {
    WithSize(t, SATCHEL, Amount(t, SATCHEL) - amount);
  }

  // Undoing a successful take never fails for someone who fitted before it.
  lemma TakeCanBeUndone(t: Held, item: Item, amount: uint8, base: nat)
    requires Proper(t) && CanTake(t, item, amount)
    ensures CanAdd(Taken(t, item, amount), item, amount, base) <==> Fits(t, base)
    ensures Added(Taken(t, item, amount), item, amount) == t
  {
    AddTakeBack(t, item, amount);
  }

  // ---- crafting ----

  datatype Recipe = Recipe(output: Item, outputQuantity: uint8, inputs: seq<ItemStack>)

  // The recipe table, each recipe's inputs in item order.
  function RecipeFor(output: Item): Option<Recipe> {
    if output == SHIV || output == DOOR_STOP then Some(Recipe(output, 1, [Record(METAL_SLAB, 1), Record(WOOD, 1)]))
    else if output == LADDER then Some(Recipe(output, 1, [Record(METAL_SLAB, 1), Record(WOOD, 2)]))
    else if output == SHOVEL then Some(Recipe(output, 1, [Record(METAL_SLAB, 2), Record(WOOD, 1)]))
    else if output == WIRE_CUTTERS then Some(Recipe(output, 1, [Record(LOCK_PICK, 1), Record(METAL_SLAB, 2)]))
    else None
  }

  // The holdings after paying the inputs one by one, if all can be paid.
  function Paid(t: Held, inputs: seq<ItemStack>): Option<Held> {
    if inputs == [] then Some(t)
    else
      var n := |inputs| - 1;
      var before := Paid(t, inputs[..n]);
      if before.None? || !CanTake(before.value, inputs[n].id, inputs[n].body) then None
      else Some(Taken(before.value, inputs[n].id, inputs[n].body))
  }

  function Crafted(t: Held, output: Item, base: nat): Option<Held> {
    var recipe := RecipeFor(output);
    if recipe.None? then None
    else
      var paid := Paid(t, recipe.value.inputs);
      if paid.None? || !CanAdd(paid.value, output, recipe.value.outputQuantity, base) then None
      else Some(Added(paid.value, output, recipe.value.outputQuantity))
  }

  lemma {:induction false} TotalAbsent(list: seq<ItemStack>, item: Item)
    requires forall k :: 0 <= k < |list| ==> list[k].id != item
    ensures Total(list, item) == 0
  {
    if list != [] { TotalAbsent(list[..|list| - 1], item); }
  }

  // What paying leaves: everything less the inputs.
  ghost predicate PaidOff(t: Held, inputs: seq<ItemStack>, left: Held) {
    Proper(left) && forall i :: Amount(left, i) == Amount(t, i) - Total(inputs, i)
  }

  ghost predicate Affordable(t: Held, inputs: seq<ItemStack>) {
    forall k :: 0 <= k < |inputs| ==> inputs[k].body <= Amount(t, inputs[k].id)
  }

  // Paying distinct inputs one by one succeeds exactly when each is held in full, and takes
  // exactly the inputs.
  lemma {:induction false} PaidExactly(t: Held, inputs: seq<ItemStack>)
    requires Proper(t) && Clean(inputs)
    ensures Paid(t, inputs).Some? <==> Affordable(t, inputs)
    ensures Paid(t, inputs).Some? ==> PaidOff(t, inputs, Paid(t, inputs).value)
  {
    if inputs != [] {
      var n := |inputs| - 1;
      PaidExactly(t, inputs[..n]);
      TotalAbsent(inputs[..n], inputs[n].id);
      if Paid(t, inputs).Some? {
        PaidNext(t, inputs, Paid(t, inputs[..n]).value);
      }
    }
  }

  lemma PaidNext(t: Held, inputs: seq<ItemStack>, before: Held)
    requires inputs != [] && IsKnown(inputs[|inputs| - 1].id)
    requires PaidOff(t, inputs[..|inputs| - 1], before)
    requires CanTake(before, inputs[|inputs| - 1].id, inputs[|inputs| - 1].body)
    ensures PaidOff(t, inputs, Taken(before, inputs[|inputs| - 1].id, inputs[|inputs| - 1].body))
  {
    var last := inputs[|inputs| - 1];
    WithProper(before, last.id, Amount(before, last.id) - last.body);
  }

  lemma RecipesClean(output: Item)
    requires RecipeFor(output).Some?
    ensures var recipe := RecipeFor(output).value;
      && recipe.output == output && IsKnown(output) && recipe.outputQuantity == 1
      && Clean(recipe.inputs)
      && forall k :: 0 <= k < |recipe.inputs| ==> recipe.inputs[k].id in {LOCK_PICK, METAL_SLAB, WOOD}
  {
  }

  // Crafting is all or nothing: it succeeds exactly when every input is held and the product
  // fits, and then takes the inputs, adds one product and changes nothing else.
  lemma CraftedExactly(t: Held, output: Item, base: nat)
    requires Proper(t) && RecipeFor(output).Some?
    ensures var inputs := RecipeFor(output).value.inputs;
      && (Crafted(t, output, base).Some? <==>
           Affordable(t, inputs) && Paid(t, inputs).Some? && CanAdd(Paid(t, inputs).value, output, 1, base))
      && (Crafted(t, output, base).Some? ==>
           (forall i :: Amount(Crafted(t, output, base).value, i)
             == Amount(t, i) - Total(inputs, i) + (if i == output then 1 else 0)))
    ensures Crafted(t, output, base).Some? ==> Fits(Crafted(t, output, base).value, base)
    ensures Crafted(t, output, base).Some? ==> Proper(Crafted(t, output, base).value)
  {
    RecipesClean(output);
    var inputs := RecipeFor(output).value.inputs;
    hide RecipeFor, Paid, Total;
    PaidExactly(t, inputs);
    if Crafted(t, output, base).Some? {
      var left := Paid(t, inputs).value;
      WithProper(left, output, Amount(left, output) + 1);
    }
  }

  // No recipe consumes or produces satchels or golden bullets.
  lemma CraftSpares(t: Held, output: Item, base: nat, item: Item)
    requires Proper(t) && Crafted(t, output, base).Some? && item in {SATCHEL, GOLDEN_BULLET}
    ensures Amount(Crafted(t, output, base).value, item) == Amount(t, item)
  {
    RecipesClean(output);
    CraftedExactly(t, output, base);
    TotalAbsent(RecipeFor(output).value.inputs, item);
  }

  // ---- refitting to slots ----

  // What adding stacks one by one keeps; what does not fit is lost.
  function Refitted(stacks: seq<ItemStack>, base: nat): Held {
    if stacks == [] then map[]
    else
      var n := |stacks| - 1;
      var before := Refitted(stacks[..n], base);
      if CanAdd(before, stacks[n].id, stacks[n].body, base) then Added(before, stacks[n].id, stacks[n].body) else before
  }

  lemma {:induction false} RefittedAtMost(stacks: seq<ItemStack>, base: nat, item: Item)
    requires Clean(stacks)
    ensures Proper(Refitted(stacks, base))
    ensures Amount(Refitted(stacks, base), item) <= Total(stacks, item)
  {
    if stacks != [] { RefittedAtMost(stacks[..|stacks| - 1], base, item); }
  }

  lemma {:induction false} RefittedFits(stacks: seq<ItemStack>, base: nat)
    ensures Fits(Refitted(stacks, base), base)
  {
    if stacks != [] { RefittedFits(stacks[..|stacks| - 1], base); }
  }
}
