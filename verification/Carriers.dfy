// The inventory operations on a player (internal/gamecore/items/inventory.go) and the cards
// they pay with (internal/gamecore/cards/framework.go).

module Carriers {
  import opened Records
  import opened State
  import opened Inventory
  import opened Holdings

  // The fields of a player state that items and cards touch; also the carrier a cell stash is
  // wrapped in.
  class Carrier {
    const id: PlayerId
    var inventory: seq<ItemStack>
    var inventorySlots: uint8
    var cards: seq<nat>

    constructor (id: PlayerId, inventory: seq<ItemStack>, slots: uint8, cards: seq<nat>)
      ensures this.id == id && this.inventory == inventory && inventorySlots == slots && this.cards == cards
    {
      this.id, this.inventory, inventorySlots, this.cards := id, inventory, slots, cards;
    }

    ghost function Holds(): Held
      reads this
    {
      Inventory.Held(inventory)
    }

    function Base(): nat
      reads this
    {
      BaseLimit(inventorySlots)
    }
  }

  // ---- changing one stack of a clean list ----

  lemma IndexSplit(list: seq<ItemStack>, k: nat)
    requires k < |list|
    ensures Index(list) == Index(list[..k])[list[k].id := list[k].body] + Index(list[k + 1..])
  {
    hide Index;
    assert list == (list[..k] + [list[k]]) + list[k + 1..];
    IndexConcat(list[..k] + [list[k]], list[k + 1..]);
    IndexAppend(list[..k], list[k]);
  }

  lemma OtherStacks(list: seq<ItemStack>, k: nat)
    requires Clean(list) && k < |list|
    ensures list[k].id !in Index(list[..k]) && list[k].id !in Index(list[k + 1..])
  {
    IndexMember(list[..k], list[k].id);
    IndexMember(list[k + 1..], list[k].id);
  }

  lemma CleanChanged(list: seq<ItemStack>, k: nat, quantity: uint8)
    requires Clean(list) && k < |list| && quantity > 0
    ensures Clean(list[k := Record(list[k].id, quantity)])
  {
  }

  lemma CleanWithout(list: seq<ItemStack>, k: nat)
    requires Clean(list) && k < |list|
    ensures Clean(list[..k] + list[k + 1..])
  {
    var rest := list[..k] + list[k + 1..];
    forall i | 0 <= i < |rest| ensures rest[i] == list[if i < k then i else i + 1] {
    }
  }

  lemma PutInMiddle<T>(a: map<nat, T>, b: map<nat, T>, key: nat, before: T, after: T)
    requires key !in a && key !in b
    ensures (a[key := before] + b)[key := after] == a[key := after] + b
    ensures (a[key := before] + b) - {key} == a + b
  {
  }

  lemma StackChanged(list: seq<ItemStack>, k: nat, quantity: uint8)
    requires Clean(list) && k < |list| && quantity > 0
    ensures Inventory.Held(list[k := Record(list[k].id, quantity)]) == Index(list)[list[k].id := quantity]
  {
    var changed := list[k := Record(list[k].id, quantity)];
    IndexSplit(list, k);
    IndexSplit(changed, k);
    OtherStacks(list, k);
    assert changed[..k] == list[..k] && changed[k + 1..] == list[k + 1..];
    CleanChanged(list, k, quantity);
    PutInMiddle(Index(list[..k]), Index(list[k + 1..]), list[k].id, list[k].body, quantity);
    hide *;
    CleanHeld(changed);
  }

  lemma StackRemoved(list: seq<ItemStack>, k: nat)
    requires Clean(list) && k < |list|
    ensures Inventory.Held(list[..k] + list[k + 1..]) == Index(list) - {list[k].id}
  {
    IndexSplit(list, k);
    OtherStacks(list, k);
    IndexConcat(list[..k], list[k + 1..]);
    CleanWithout(list, k);
    PutInMiddle(Index(list[..k]), Index(list[k + 1..]), list[k].id, list[k].body, list[k].body);
    hide *;
    CleanHeld(list[..k] + list[k + 1..]);
  }

  lemma StackAppended(list: seq<ItemStack>, item: Item, quantity: uint8)
    requires Clean(list) && IsKnown(item) && quantity > 0 && item !in Index(list)
    ensures Inventory.Held(list + [Record(item, quantity)]) == Index(list)[item := quantity]
  {
    IndexAppend(list, Record(item, quantity));
    forall i | 0 <= i < |list| ensures list[i].id != item {
      IndexMember(list, list[i].id);
    }
    CleanHeld(list + [Record(item, quantity)]);
  }

  lemma StackAt(list: seq<ItemStack>, k: nat)
    requires Clean(list) && k < |list|
    ensures list[k].id in Index(list) && Index(list)[list[k].id] == list[k].body
  {
    IndexSplit(list, k);
    OtherStacks(list, k);
  }

  method FindStack(inventory: seq<ItemStack>, item: Item) returns (index: Option<nat>)
    ensures index.Some? ==> index.value < |inventory| && inventory[index.value].id == item
    ensures index.None? ==> item !in Index(inventory)
  {
    for i := 0 to |inventory|
      invariant forall j :: 0 <= j < i ==> inventory[j].id != item
    {
      if inventory[i].id == item { return Some(i); }
    }
    IndexMember(inventory, item);
    return None;
  }

  method StackLimit(inventory: seq<ItemStack>, base: nat) returns (limit: nat)
    ensures limit == base + Total(inventory, SATCHEL) * SATCHEL_BONUS
  {
    var satchels := 0;
    for i := 0 to |inventory|
      invariant satchels == Total(inventory[..i], SATCHEL)
    {
      assert inventory[..i + 1][..i] == inventory[..i];
      if inventory[i].id != SATCHEL { continue; }
      satchels := satchels + inventory[i].body;
    }
    assert inventory[..|inventory|] == inventory;
    return base + satchels * SATCHEL_BONUS;
  }

  lemma {:induction false} CleanTotal(list: seq<ItemStack>, item: Item)
    requires Clean(list)
    ensures Total(list, item) == Amount(Index(list), item)
  {
    if list != [] {
      CleanTotal(list[..|list| - 1], item);
      StackAt(list, |list| - 1);
      OtherStacks(list, |list| - 1);
    }
  }

  // Adding one stack to a canonical inventory stays far from the 16-bit limit of the sums.
  lemma AddWithinRange(inventory: seq<ItemStack>, stack: ItemStack, item: Item)
    requires Canonical(inventory) && IsKnown(item)
    ensures Total(inventory + [stack], item) <= 510
    ensures Amount(Inventory.Held(inventory + [stack]), item) == Clamp(Total(inventory + [stack], item))
  {
    TotalAppend(inventory, [stack], item);
    CleanTotal(inventory, item);
    SaturatesExactly(inventory + [stack], item);
  }

  // For a listed table, the stacks and the limit the code counts are the table's.
  lemma CountsOf(t: Held, base: nat)
    requires Proper(t)
    ensures |Listing(t)| == |t| && base + Total(Listing(t), SATCHEL) * SATCHEL_BONUS == Limit(t, base)
  {
    ListingLength(t);
    ListingCanonical(t);
    ListingShape(t);
    CleanTotal(Listing(t), SATCHEL);
  }

  method AddToInventory(inventory: seq<ItemStack>, item: Item, amount: uint8, baseLimit: nat)
    returns (next: Option<seq<ItemStack>>)
    requires Canonical(inventory)
    ensures var base := if baseLimit == 0 then BASE_STACK_LIMIT else baseLimit;
      next == if CanAdd(Inventory.Held(inventory), item, amount, base)
              then Some(Listing(Added(Inventory.Held(inventory), item, amount))) else None
  {
    hide Index, Listing, Aggregated, Clamped, Total, Proper;
    if amount == 0 || !IsKnown(item) { return None; }
    ghost var t := Inventory.Held(inventory);
    CleanHeld(inventory);
    HeldProper(inventory);
    var changed := inventory;
    var index := FindStack(changed, item);
    if index.Some? {
      StackAt(inventory, index.value);
      var nextQuantity := changed[index.value].body + amount;
      if nextQuantity > 255 { return None; }
      StackChanged(inventory, index.value, nextQuantity);
      changed := changed[index.value := Record(item, nextQuantity)];
    } else {
      StackAppended(inventory, item, amount);
      changed := changed + [Record(item, amount)];
    }
    assert Inventory.Held(changed) == Added(t, item, amount);
    HeldProper(changed);
    CountsOf(Added(t, item, amount), if baseLimit == 0 then BASE_STACK_LIMIT else baseLimit);
    var normalized := NormalizeInventory(changed);
    var limit := StackLimit(normalized, if baseLimit == 0 then BASE_STACK_LIMIT else baseLimit);
    if |normalized| > limit { return None; }
    return Some(normalized);
  }

  method RemoveFromInventory(inventory: seq<ItemStack>, item: Item, amount: uint8)
    returns (next: Option<seq<ItemStack>>)
    requires Canonical(inventory)
    ensures next == if CanTake(Inventory.Held(inventory), item, amount)
                    then Some(Listing(Taken(Inventory.Held(inventory), item, amount))) else None
  {
    hide Index, Listing, Aggregated;
    if amount == 0 || !IsKnown(item) { return None; }
    CleanHeld(inventory);
    var changed := inventory;
    var index := FindStack(changed, item);
    if index.None? { return None; }
    StackAt(inventory, index.value);
    if changed[index.value].body < amount { return None; }
    var left := changed[index.value].body - amount;
    if left == 0 {
      StackRemoved(inventory, index.value);
      changed := changed[..index.value] + changed[index.value + 1..];
    } else {
      StackChanged(inventory, index.value, left);
      changed := changed[index.value := Record(item, left)];
    }
    var normalized := NormalizeInventory(changed);
    return Some(normalized);
  }

  // ---- the operations on a player ----

  method HasItem(player: Carrier, item: Item, amount: uint8) returns (has: bool)
    ensures has <==> IsKnown(item) && amount <= Amount(player.Holds(), item)
  {
    if !IsKnown(item) { return false; }
    if amount == 0 { return true; }
    var inventory := NormalizeInventory(player.inventory);
    HeldProper(player.inventory);
    ListingCanonical(player.Holds());
    ListingShape(player.Holds());
    var index := FindStack(inventory, item);
    if index.None? { return false; }
    StackAt(inventory, index.value);
    return inventory[index.value].body >= amount;
  }

  // Normalising gives a canonical list of the same holdings.
  lemma NormalForm(inventory: seq<ItemStack>)
    ensures Canonical(Normalized(inventory)) && Inventory.Held(Normalized(inventory)) == Inventory.Held(inventory)
  {
    HeldProper(inventory);
    ListingCanonical(Inventory.Held(inventory));
    HeldListing(Inventory.Held(inventory));
  }

  method AddItem(player: Carrier, item: Item, amount: uint8) returns (ok: bool)
    modifies player`inventory
    ensures ok == CanAdd(old(player.Holds()), item, amount, player.Base())
    ensures player.inventory == if ok then Listing(Added(old(player.Holds()), item, amount)) else old(player.inventory)
  {
    if amount == 0 || !IsKnown(item) { return false; }
    NormalForm(player.inventory);
    var normalized := NormalizeInventory(player.inventory);
    var next := AddToInventory(normalized, item, amount, player.Base());
    if next.None? { return false; }
    player.inventory := next.value;
    return true;
  }

  method RemoveItem(player: Carrier, item: Item, amount: uint8) returns (ok: bool)
    modifies player`inventory
    ensures ok == CanRemove(old(player.Holds()), item, amount, player.Base())
    ensures player.inventory == if ok then Listing(Taken(old(player.Holds()), item, amount)) else old(player.inventory)
  {
    hide Canonical, Listing, Inventory.Held, Total;
    if amount == 0 || !IsKnown(item) { return false; }
    ghost var t := player.Holds();
    NormalForm(player.inventory);
    var normalized := NormalizeInventory(player.inventory);
    var next := RemoveFromInventory(normalized, item, amount);
    if next.None? { return false; }
    if item == SATCHEL {
      HeldProper(player.inventory);
      CountsOf(Taken(t, item, amount), player.Base());
      var limit := StackLimit(next.value, player.Base());
      if |next.value| > limit { return false; }
    }
    player.inventory := next.value;
    return true;
  }

  // A satchel that leaves this way is not checked against the giver's stacks.
  method TransferItem(giver: Carrier, taker: Carrier, item: Item, amount: uint8) returns (ok: bool)
    modifies giver`inventory, taker`inventory
    ensures ok <==> (
      && giver.id != taker.id && CanTake(old(giver.Holds()), item, amount)
      && CanAdd(old(taker.Holds()), item, amount, taker.Base()))
    ensures ok ==> giver.inventory == Listing(Taken(old(giver.Holds()), item, amount))
    ensures ok ==> taker.inventory == Listing(Added(old(taker.Holds()), item, amount))
    ensures !ok ==> giver.inventory == old(giver.inventory) && taker.inventory == old(taker.inventory)
  {
    hide Canonical, Listing, Inventory.Held, Normalized, Taken, Added, Fits;
    if amount == 0 || !IsKnown(item) { return false; }
    if giver.id == taker.id { return false; }
    NormalForm(giver.inventory);
    NormalForm(taker.inventory);
    var source := NormalizeInventory(giver.inventory);
    var destination := NormalizeInventory(taker.inventory);
    var sourceAfter := RemoveFromInventory(source, item, amount);
    if sourceAfter.None? { return false; }
    var destinationAfter := AddToInventory(destination, item, amount, taker.Base());
    if destinationAfter.None? { return false; }
    giver.inventory := sourceAfter.value;
    taker.inventory := destinationAfter.value;
    return true;
  }

  method Craft(player: Carrier, output: Item) returns (ok: bool)
    modifies player`inventory
    ensures ok == Crafted(old(player.Holds()), output, player.Base()).Some?
    ensures player.inventory ==
      if ok then Listing(Crafted(old(player.Holds()), output, player.Base()).value) else old(player.inventory)
  {
    hide Listing, Inventory.Held, Canonical, CanTake, CanAdd, Taken, Added;
    var recipe := RecipeFor(output);
    if recipe.None? { return false; }
    ghost var t := player.Holds();
    NormalForm(player.inventory);
    HeldProper(player.inventory);
    RecipesClean(output);
    hide RecipeFor;
    var inputs := recipe.value.inputs;
    var next := NormalizeInventory(player.inventory);
    for i := 0 to |inputs|
      invariant player.inventory == old(player.inventory)
      invariant Canonical(next) && Paid(t, inputs[..i]) == Some(Inventory.Held(next))
    {
      assert inputs[..i + 1][..i] == inputs[..i];
      var after := RemoveFromInventory(next, inputs[i].id, inputs[i].body);
      if after.None? {
        PaidNoneStays(t, inputs, i + 1);
        return false;
      }
      TakenListed(next, inputs[i].id, inputs[i].body);
      next := after.value;
    }
    assert inputs[..|inputs|] == inputs;
    var crafted := AddToInventory(next, recipe.value.output, recipe.value.outputQuantity, player.Base());
    if crafted.None? { return false; }
    player.inventory := crafted.value;
    return true;
  }

  lemma TakenListed(inventory: seq<ItemStack>, item: Item, amount: uint8)
    requires CanTake(Inventory.Held(inventory), item, amount)
    ensures var left := Taken(Inventory.Held(inventory), item, amount);
      Canonical(Listing(left)) && Inventory.Held(Listing(left)) == left
  {
    HeldProper(inventory);
    ListingCanonical(Taken(Inventory.Held(inventory), item, amount));
    HeldListing(Taken(Inventory.Held(inventory), item, amount));
  }

  lemma {:induction false} PaidNoneStays(t: Held, inputs: seq<ItemStack>, k: nat)
    requires k <= |inputs| && Paid(t, inputs[..k]).None?
    ensures Paid(t, inputs).None?
    decreases |inputs|
  {
    if k == |inputs| {
      assert inputs[..k] == inputs;
    } else {
      var n := |inputs| - 1;
      assert inputs[..n][..k] == inputs[..k];
      PaidNoneStays(t, inputs[..n], k);
    }
  }
}
