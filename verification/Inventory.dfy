// Item stacks and the operations on a player's inventory (internal/gamecore/items/inventory.go).
// Items are numbered in the alphabetical order of their names; 0 and everything above WOOD are
// not items of the game.

module Inventory {
  import opened Records
  import opened State

  type Item = nat

  const BADGE: Item := 1
  const BATON: Item := 2
  const BULLET: Item := 3
  const DOOR_STOP: Item := 4
  const GOLDEN_BULLET: Item := 5
  const HUNTING_RIFLE: Item := 6
  const KEYS: Item := 7
  const LADDER: Item := 8
  const LOCK_PICK: Item := 9
  const METAL_SLAB: Item := 10
  const PISTOL: Item := 11
  const SATCHEL: Item := 12
  const SHIV: Item := 13
  const SHOVEL: Item := 14
  const SILENCER: Item := 15
  const WIRE_CUTTERS: Item := 16
  const WOOD: Item := 17

  const BASE_STACK_LIMIT: nat := 6
  const SATCHEL_BONUS: nat := 3

  predicate IsKnown(item: Item) { BADGE <= item <= WOOD }

  // ---- normalisation ----

  type Table = map<Item, nat>

  function Amount(t: Table, item: Item): nat { if item in t then t[item] else 0 }

  // Per-item sums in 16-bit arithmetic, over the stacks of known items.
  function Aggregated(inventory: seq<ItemStack>): (t: Table)
    ensures forall i :: i in t ==> IsKnown(i) && t[i] < 65536
  {
    if inventory == [] then map[]
    else
      var n := |inventory| - 1;
      var front, stack := Aggregated(inventory[..n]), inventory[n];
      if stack.body == 0 || !IsKnown(stack.id) then front
      else front[stack.id := (Amount(front, stack.id) + stack.body) % 65536]
  }

  function Clamp(quantity: nat): uint8 { if quantity > 255 then 255 else quantity }

  function Clamped(t: Table): map<Item, uint8> {
    map i | i in t && t[i] != 0 :: Clamp(t[i])
  }

  ghost predicate Proper(t: map<Item, uint8>) { forall i :: i in t ==> IsKnown(i) && t[i] > 0 }

  // What an inventory holds once normalised.
  function Held(inventory: seq<ItemStack>): map<Item, uint8> { Clamped(Aggregated(inventory)) }

  ghost function Normalized(inventory: seq<ItemStack>): seq<ItemStack> { Listing(Held(inventory)) }

  // Sorted, distinct, known, positive stacks.
  ghost predicate Canonical(inventory: seq<ItemStack>) {
    AscendingById(inventory) && forall i :: 0 <= i < |inventory| ==> IsKnown(inventory[i].id) && inventory[i].body > 0
  }

  // The plain sum of an item's stacks.
  function Total(inventory: seq<ItemStack>, item: Item): nat {
    if inventory == [] then 0
    else
      Total(inventory[..|inventory| - 1], item) +
      (if inventory[|inventory| - 1].id == item then inventory[|inventory| - 1].body else 0)
  }

  lemma WrapAdd(a: nat, b: nat)
    ensures (a % 65536 + b) % 65536 == (a + b) % 65536
  {
  }

  lemma {:induction false} AggregatedTotal(inventory: seq<ItemStack>, item: Item)
    requires IsKnown(item)
    ensures Amount(Aggregated(inventory), item) == Total(inventory, item) % 65536
  {
    if inventory != [] {
      AggregatedTotal(inventory[..|inventory| - 1], item);
      WrapAdd(Total(inventory[..|inventory| - 1], item), inventory[|inventory| - 1].body);
    }
  }

  lemma {:induction false} TotalAppend(a: seq<ItemStack>, b: seq<ItemStack>, item: Item)
    ensures Total(a + b, item) == Total(a, item) + Total(b, item)
  {
    if b == [] {
      assert a + b == a;
    } else {
      TotalAppend(a, b[..|b| - 1], item);
      assert (a + b)[..|a + b| - 1] == a + b[..|b| - 1];
    }
  }

  lemma TotalWithout(list: seq<ItemStack>, k: nat, item: Item)
    requires k < |list|
    ensures Total(list, item) == Total(list[..k] + list[k + 1..], item) + Total([list[k]], item)
  {
    assert list == list[..k] + ([list[k]] + list[k + 1..]);
    TotalAppend(list[..k], [list[k]] + list[k + 1..], item);
    TotalAppend([list[k]], list[k + 1..], item);
    TotalAppend(list[..k], list[k + 1..], item);
  }

  lemma RemovedOne<T>(s: seq<T>, k: nat)
    requires k < |s|
    ensures multiset(s[..k] + s[k + 1..]) == multiset(s) - multiset{s[k]}
  {
    assert s == s[..k] + [s[k]] + s[k + 1..];
  }

  lemma SameWithout(a: seq<ItemStack>, b: seq<ItemStack>, k: nat)
    requires multiset(a) == multiset(b) && a != [] && k < |b| && b[k] == a[|a| - 1]
    ensures multiset(a[..|a| - 1]) == multiset(b[..k] + b[k + 1..])
  {
    RemovedOne(a, |a| - 1);
    assert a[..|a| - 1] + a[|a|..] == a[..|a| - 1];
    RemovedOne(b, k);
  }

  lemma {:induction false} TotalShuffled(a: seq<ItemStack>, b: seq<ItemStack>, item: Item)
    requires multiset(a) == multiset(b)
    ensures Total(a, item) == Total(b, item)
  {
    if a == [] {
      assert |multiset(b)| == 0;
    } else {
      var n := |a| - 1;
      assert a[n] in multiset(b);
      var k :| 0 <= k < |b| && b[k] == a[n];
      SameWithout(a, b, k);
      TotalWithout(b, k, item);
      TotalShuffled(a[..n], b[..k] + b[k + 1..], item);
    }
  }

  // What normalising leaves of an item: its total in 16-bit arithmetic, capped at 255.
  lemma HeldAmount(inventory: seq<ItemStack>, item: Item)
    ensures Amount(Held(inventory), item) == if IsKnown(item) then Clamp(Total(inventory, item) % 65536) else 0
  {
    if IsKnown(item) { AggregatedTotal(inventory, item); }
  }

  lemma HeldSame(a: seq<ItemStack>, b: seq<ItemStack>)
    requires forall item :: IsKnown(item) ==> Amount(Held(a), item) == Amount(Held(b), item)
    ensures Held(a) == Held(b)
  {
    hide Aggregated;
    forall item ensures item in Held(a) <==> item in Held(b) {
      assert IsKnown(item) ==> Amount(Held(a), item) == Amount(Held(b), item);
    }
  }

  // Normalising does not depend on the order of the stacks.
  lemma NormalizedShuffled(a: seq<ItemStack>, b: seq<ItemStack>)
    requires multiset(a) == multiset(b)
    ensures Normalized(a) == Normalized(b)
  {
    forall item | IsKnown(item) ensures Amount(Held(a), item) == Amount(Held(b), item) {
      HeldAmount(a, item);
      HeldAmount(b, item);
      TotalShuffled(a, b, item);
    }
    HeldSame(a, b);
  }

  lemma ClampWrap(total: nat)
    ensures Clamp(total % 65536) == Clamp(total) <==> total < 65536 || total % 65536 >= 255
  {
  }

  // The cap loses nothing below 255, and the 16-bit sum goes wrong exactly on totals of 65536
  // and more whose remainder falls short of the cap.
  lemma SaturatesExactly(inventory: seq<ItemStack>, item: Item)
    requires IsKnown(item)
    ensures var total := Total(inventory, item);
      Amount(Held(inventory), item) == Clamp(total) <==> total < 65536 || total % 65536 >= 255
  {
    HeldAmount(inventory, item);
    ClampWrap(Total(inventory, item));
    hide Clamp, Total, Aggregated;
  }

  lemma HeldProper(inventory: seq<ItemStack>)
    ensures Proper(Held(inventory))
  {
  }

  lemma ListingCanonical(t: map<Item, uint8>)
    requires Proper(t)
    ensures Canonical(Listing(t))
  {
    ListingShape(t);
    IndexAt(Listing(t));
  }

  ghost predicate DistinctIds(list: seq<ItemStack>) {
    forall i, j :: 0 <= i < j < |list| ==> list[i].id != list[j].id
  }

  ghost predicate Clean(list: seq<ItemStack>) {
    DistinctIds(list) && forall i :: 0 <= i < |list| ==> IsKnown(list[i].id) && list[i].body > 0
  }

  // Without repeated items or junk, aggregating is just indexing.
  lemma {:induction false} CleanAggregated(list: seq<ItemStack>)
    requires Clean(list)
    ensures Aggregated(list) == Index(list)
  {
    if list != [] {
      var n := |list| - 1;
      CleanAggregated(list[..n]);
      IndexMember(list[..n], list[n].id);
    }
  }

  lemma CleanHeld(list: seq<ItemStack>)
    requires Clean(list)
    ensures Held(list) == Index(list)
  {
    CleanAggregated(list);
    forall i | i in Index(list) ensures Index(list)[i] != 0 {
      IndexMember(list, i);
    }
  }

  // A canonical inventory is its own normal form; so normalising twice is normalising once.
  lemma CanonicalFixed(inventory: seq<ItemStack>)
    ensures Canonical(inventory) ==> Normalized(inventory) == inventory
    ensures Canonical(Normalized(inventory)) && Normalized(Normalized(inventory)) == Normalized(inventory)
  {
    HeldProper(inventory);
    ListingCanonical(Held(inventory));
    CleanHeld(Normalized(inventory));
    AscendingUnique(Normalized(inventory));
    if Canonical(inventory) {
      CleanHeld(inventory);
      AscendingUnique(inventory);
    }
  }

  lemma HeldListing(t: map<Item, uint8>)
    requires Proper(t)
    ensures Held(Listing(t)) == t
  {
    ListingCanonical(t);
    CleanHeld(Listing(t));
    ListingShape(t);
  }

  lemma {:induction false} ListingLength<T>(table: map<nat, T>)
    ensures |Listing(table)| == |table|
    decreases |table|
  {
    if table != map[] {
      var last := MaxOf(table.Keys);
      ListingLength(table - {last});
      assert table.Keys == (table - {last}).Keys + {last};
    }
  }

  method ClampAll(aggregated: Table) returns (kept: map<Item, uint8>)
    ensures kept == Clamped(aggregated)
  {
    kept := map[];
    var pending := aggregated.Keys;
    while pending != {}
      invariant pending <= aggregated.Keys
      invariant forall i :: i in kept <==> i in aggregated && i !in pending && aggregated[i] != 0
      invariant forall i :: i in kept ==> kept[i] == Clamp(aggregated[i])
      decreases |pending|
    {
      var item :| item in pending;
      pending := pending - {item};
      var quantity := aggregated[item];
      if quantity == 0 { continue; }
      if quantity > 255 { quantity := 255; }
      kept := kept[item := quantity];
    }
  }

  method NormalizeInventory(inventory: seq<ItemStack>) returns (normalized: seq<ItemStack>)
    ensures normalized == Normalized(inventory)
  {
    hide Listing;
    if |inventory| == 0 {
      NothingHeld();
      return [];
    }
    var aggregated: Table := map[];
    for i := 0 to |inventory|
      invariant aggregated == Aggregated(inventory[..i])
    {
      assert inventory[..i + 1][..i] == inventory[..i];
      var stack := inventory[i];
      if stack.body == 0 || !IsKnown(stack.id) { continue; }
      aggregated := aggregated[stack.id := (Amount(aggregated, stack.id) + stack.body) % 65536];
    }
    assert inventory[..|inventory|] == inventory;
    var kept := ClampAll(aggregated);
    normalized := ListTable(kept);
  }

  lemma NothingHeld()
    ensures Normalized([]) == []
  {
    assert Held([]) == map[];
  }
}
