// Restoring the authorities' sidearms at dawn (internal/server/game/manager.go): whether the ids
// it returns cover the records it changes, which is what the tick's delta relies on.

module Sidearms {
  import opened Records
  import opened State
  import opened Inventory
  import opened Holdings
  import opened Carriers
  import opened Search

  // The player fields the restore reads and writes.
  datatype Player = Player(
    id: PlayerId, authority: bool, alive: bool, slots: uint8, inventory: seq<ItemStack>, bullets: uint8, equipped: Item)

  const SLOT_COUNT: uint8 := 3
  const AMMO_MAX: uint8 := 3

  // What a step leaves, and whether it reports a change.
  datatype Outcome = Outcome(held: Held, updated: bool)

  function BatonRestored(t: Held): Outcome {
    if BATON !in t && CanAdd(t, BATON, 1, SLOT_COUNT) then Outcome(Added(t, BATON, 1), true) else Outcome(t, false)
  }

  predicate Evictable(t: Held, item: Item) {
    item in t && item !in {BATON, PISTOL, BULLET} && CanRemove(t, item, t[item], SLOT_COUNT)
  }

  // The first evictable stack in item order from `from` on.
  function FirstEvictable(t: Held, from: Item): (first: Option<Item>)
    requires from <= WOOD + 1
    ensures first.Some? ==>
      from <= first.value && Evictable(t, first.value) && forall i :: from <= i < first.value ==> !Evictable(t, i)
    ensures first.None? ==> forall i :: from <= i <= WOOD ==> !Evictable(t, i)
    decreases WOOD + 1 - from
  {
    if from == WOOD + 1 then None
    else if Evictable(t, from) then Some(from)
    else FirstEvictable(t, from + 1)
  }

  function Evicted(t: Held): Outcome {
    var first := FirstEvictable(t, 0);
    if first.Some? then Outcome(t - {first.value}, true)
    else if BULLET in t && CanRemove(t, BULLET, t[BULLET], SLOT_COUNT) then Outcome(t - {BULLET}, true)
    else Outcome(t, false)
  }

  function PistolRestored(t: Held): Outcome {
    if PISTOL in t then Outcome(t, false)
    else if CanAdd(t, PISTOL, 1, SLOT_COUNT) then Outcome(Added(t, PISTOL, 1), true)
    else if Evicted(t).updated && CanAdd(Evicted(t).held, PISTOL, 1, SLOT_COUNT)
    then Outcome(Added(Evicted(t).held, PISTOL, 1), true)
    else Outcome(Evicted(t).held, false)
  }

  function Capped(bullets: uint8): uint8 { if bullets > AMMO_MAX then AMMO_MAX else bullets }

  // The bullet stack becomes the bullet count, if it fits.
  function BulletsSynced(t: Held, bullets: uint8): Outcome {
    var emptied := t - {BULLET};
    if bullets > 0 && CanAdd(emptied, BULLET, Capped(bullets), SLOT_COUNT)
    then Outcome(Added(emptied, BULLET, Capped(bullets)), true)
    else Outcome(emptied, BULLET in t || bullets > AMMO_MAX)
  }

  predicate CanUse(t: Held, alive: bool, weapon: Item) {
    alive && weapon in {BATON, SHIV, PISTOL, HUNTING_RIFLE} && weapon in t
  }

  function Preferred(t: Held, alive: bool): Item {
    if CanUse(t, alive, PISTOL) then PISTOL
    else if CanUse(t, alive, HUNTING_RIFLE) then HUNTING_RIFLE
    else if CanUse(t, alive, BATON) then BATON
    else if CanUse(t, alive, SHIV) then SHIV
    else 0
  }

  function Equipped(t: Held, alive: bool, equipped: Item): Item {
    if equipped != 0 && CanUse(t, alive, equipped) then equipped else Preferred(t, alive)
  }

  // The stacks added one by one to an empty inventory of three slots.
  ghost function Refit(t: Held): Held { Refitted(Listing(t), SLOT_COUNT) }

  ghost function Restored(p: Player): (Player, bool) {
    if !p.authority then (p, false)
    else
      var baton := BatonRestored(Refit(Inventory.Held(p.inventory)));
      var pistol := PistolRestored(baton.held);
      var synced := BulletsSynced(pistol.held, p.bullets);
      var equipped := Equipped(synced.held, p.alive, p.equipped);
      (p.(slots := SLOT_COUNT, inventory := Listing(synced.held), bullets := Capped(p.bullets), equipped := equipped),
       baton.updated || pistol.updated || synced.updated || equipped != p.equipped)
  }

  // The ids reported, in list order.
  ghost function Reported(players: seq<Player>): seq<PlayerId> {
    if players == [] then []
    else
      var n := |players| - 1;
      Reported(players[..n]) + (if Restored(players[n]).1 then [players[n].id] else [])
  }

  // ---- the code ----

  // The carrier holds exactly t, canonically, in three slots.
  ghost predicate Stands(c: Carrier, t: Held)
    reads c
  {
    c.inventory == Listing(t) && Proper(t) && c.inventorySlots == SLOT_COUNT
  }

  lemma StandsHolds(c: Carrier, t: Held)
    requires Stands(c, t)
    ensures c.Holds() == t && Canonical(c.inventory) && c.Base() == SLOT_COUNT
  {
    ListingCanonical(t);
    HeldListing(t);
  }

  lemma ChangedProper(t: Held, item: Item, amount: uint8)
    requires Proper(t) && IsKnown(item)
    ensures Amount(t, item) + amount < 256 ==> Proper(Added(t, item, amount))
    ensures Proper(t - {item}) && (item in t ==> Taken(t, item, t[item]) == t - {item})
  {
  }

  method RefitInventory(c: Carrier)
    requires Canonical(c.inventory) && c.inventorySlots == SLOT_COUNT
    modifies c`inventory
    ensures Stands(c, Refit(old(c.Holds())))
  {
    hide Listing, Inventory.Held, CanAdd, Added;
    var canonical := c.inventory;
    var rebuilt := new Carrier(0, [], SLOT_COUNT, []);
    NothingListed();
    for i := 0 to |canonical|
      invariant c.inventory == old(c.inventory) && Stands(rebuilt, Refitted(canonical[..i], SLOT_COUNT))
    {
      assert canonical[..i + 1][..i] == canonical[..i];
      StandsHolds(rebuilt, Refitted(canonical[..i], SLOT_COUNT));
      RefittedAtMost(canonical[..i + 1], SLOT_COUNT, 0);
      var _ := AddItem(rebuilt, canonical[i].id, canonical[i].body);
    }
    assert canonical[..|canonical|] == canonical;
    CanonicalFixed(canonical);
    c.inventory := rebuilt.inventory;
  }

  lemma NothingListed()
    ensures Listing<uint8>(map[]) == []
  {
  }

  method RestoreBaton(c: Carrier, ghost t: Held) returns (updated: bool)
    requires Stands(c, t)
    modifies c`inventory
    ensures Stands(c, BatonRestored(t).held) && updated == BatonRestored(t).updated
  {
    hide Listing, Inventory.Held, CanAdd, Added;
    StandsHolds(c, t);
    ChangedProper(t, BATON, 1);
    CanAddRange(t, BATON, 1);
    updated := false;
    var has := HasItem(c, BATON, 1);
    if !has { updated := AddItem(c, BATON, 1); }
  }

  lemma CanAddRange(t: Held, item: Item, amount: uint8)
    ensures CanAdd(t, item, amount, SLOT_COUNT) ==> Amount(t, item) + amount < 256 && IsKnown(item)
  {
  }

  // The listed stacks are the table's, so the first evictable in the list is the least evictable.
  lemma LeastListed(t: Held, i: nat)
    requires Proper(t) && i <= |Listing(t)|
    requires forall j :: 0 <= j < i ==> !Evictable(t, Listing(t)[j].id)
    ensures i < |Listing(t)| ==> Listing(t)[i].id in t && t[Listing(t)[i].id] == Listing(t)[i].body
    ensures i < |Listing(t)| && Evictable(t, Listing(t)[i].id) ==> FirstEvictable(t, 0) == Some(Listing(t)[i].id)
    ensures i == |Listing(t)| ==> FirstEvictable(t, 0) == None
  {
    hide Evictable, Listing;
    var list, first := Listing(t), FirstEvictable(t, 0);
    ListingShape(t);
    IndexAt(list);
    if first.Some? {
      EvictableHeld(t, first.value);
      IndexMember(list, first.value);
      var k :| 0 <= k < |list| && list[k].id == first.value;
      assert k >= i;
    }
  }

  lemma EvictableHeld(t: Held, item: Item)
    requires Evictable(t, item)
    ensures item in t
  {
  }

  method EvictOverflow(c: Carrier, ghost t: Held) returns (evicted: bool)
    requires Stands(c, t)
    modifies c`inventory
    ensures Stands(c, Evicted(t).held) && evicted == Evicted(t).updated
  {
    hide Listing, Inventory.Held, CanRemove, Added, FirstEvictable;
    StandsHolds(c, t);
    var stacks := c.inventory;
    for i := 0 to |stacks|
      invariant c.inventory == stacks
      invariant forall j :: 0 <= j < i ==> !Evictable(t, stacks[j].id)
    {
      var stack := stacks[i];
      LeastListed(t, i);
      if stack.id == BATON || stack.id == PISTOL || stack.id == BULLET { continue; }
      RemovedWhole(t, stack.id, stack.body);
      var removed := RemoveItem(c, stack.id, stack.body);
      if removed { return true; }
    }
    LeastListed(t, |stacks|);
    var bullets := FindStack(stacks, BULLET);
    ListingShape(t);
    if bullets.Some? {
      StackAt(stacks, bullets.value);
      RemovedWhole(t, BULLET, stacks[bullets.value].body);
      evicted := RemoveItem(c, BULLET, stacks[bullets.value].body);
      return;
    }
    return false;
  }

  lemma RemovedWhole(t: Held, item: Item, amount: uint8)
    requires Proper(t) && item in t && t[item] == amount
    ensures CanRemove(t, item, amount, SLOT_COUNT) ==>
      IsKnown(item) && Taken(t, item, amount) == t - {item} && Proper(t - {item})
  {
  }

  method RestorePistol(c: Carrier, ghost t: Held) returns (updated: bool)
    requires Stands(c, t)
    modifies c`inventory
    ensures Stands(c, PistolRestored(t).held) && updated == PistolRestored(t).updated
  {
    hide Listing, Inventory.Held, CanAdd, Added, Evicted;
    StandsHolds(c, t);
    ChangedProper(t, PISTOL, 1);
    CanAddRange(t, PISTOL, 1);
    updated := false;
    var has := HasItem(c, PISTOL, 1);
    if !has {
      updated := AddItem(c, PISTOL, 1);
      if !updated {
        var evicted := EvictOverflow(c, t);
        StandsHolds(c, Evicted(t).held);
        ChangedProper(Evicted(t).held, PISTOL, 1);
        CanAddRange(Evicted(t).held, PISTOL, 1);
        if evicted { updated := AddItem(c, PISTOL, 1); }
      }
    }
  }

  lemma BulletsGo(t: Held)
    requires Proper(t)
    ensures BULLET in t ==> CanRemove(t, BULLET, t[BULLET], SLOT_COUNT)
    ensures BULLET !in t ==> t - {BULLET} == t
    ensures Proper(t - {BULLET})
  {
  }

  method SyncBullets(c: Carrier, bullets: uint8, ghost t: Held) returns (capped: uint8, changed: bool)
    requires Stands(c, t)
    modifies c`inventory
    ensures Stands(c, BulletsSynced(t, bullets).held)
    ensures capped == Capped(bullets) && changed == BulletsSynced(t, bullets).updated
  {
    hide Listing, Inventory.Held, CanAdd, Added;
    StandsHolds(c, t);
    ListingShape(t);
    BulletsGo(t);
    capped, changed := bullets, false;
    if capped > AMMO_MAX { capped, changed := AMMO_MAX, true; }
    var index := FindStack(c.inventory, BULLET);
    if index.Some? {
      StackAt(c.inventory, index.value);
      RemovedWhole(t, BULLET, c.inventory[index.value].body);
      var removed := RemoveItem(c, BULLET, c.inventory[index.value].body);
      if removed { changed := true; }
    }
    var emptied := t - {BULLET};
    assert Stands(c, emptied);
    StandsHolds(c, emptied);
    ChangedProper(emptied, BULLET, capped);
    CanAddRange(emptied, BULLET, capped);
    if capped > 0 {
      var added := AddItem(c, BULLET, capped);
      if added { changed := true; }
    }
  }

  method RestoreOne(p: Player) returns (restored: Player, updated: bool)
    requires Canonical(p.inventory)
    ensures (restored, updated) == Restored(p)
  {
    hide Listing, Inventory.Held, BatonRestored, PistolRestored, BulletsSynced, Refitted, Preferred;
    if !p.authority { return p, false; }
    var c := new Carrier(p.id, p.inventory, SLOT_COUNT, []);
    RefitInventory(c);
    ghost var refit := Refit(Inventory.Held(p.inventory));
    var baton := RestoreBaton(c, refit);
    var pistol := RestorePistol(c, BatonRestored(refit).held);
    ghost var armed := PistolRestored(BatonRestored(refit).held).held;
    var bullets, synced := SyncBullets(c, p.bullets, armed);
    ghost var t := BulletsSynced(armed, p.bullets).held;
    var equipped := Reequip(c, p.alive, p.equipped, t);
    restored := p.(slots := SLOT_COUNT, inventory := c.inventory, bullets := bullets, equipped := equipped);
    updated := baton || pistol || synced || equipped != p.equipped;
  }

  method MayUse(c: Carrier, alive: bool, weapon: Item, ghost t: Held) returns (usable: bool)
    requires Stands(c, t)
    ensures usable == CanUse(t, alive, weapon)
  {
    hide Listing, Inventory.Held;
    StandsHolds(c, t);
    if !alive || weapon !in {BATON, SHIV, PISTOL, HUNTING_RIFLE} { return false; }
    usable := HasItem(c, weapon, 1);
  }

  method Reequip(c: Carrier, alive: bool, equipped: Item, ghost t: Held) returns (next: Item)
    requires Stands(c, t)
    ensures next == Equipped(t, alive, equipped)
  {
    hide Stands, CanUse;
    if equipped != 0 {
      var usable := MayUse(c, alive, equipped, t);
      if usable { return equipped; }
    }
    var priority := [PISTOL, HUNTING_RIFLE, BATON, SHIV];
    for i := 0 to |priority|
      invariant forall j :: 0 <= j < i ==> !CanUse(t, alive, priority[j])
    {
      var usable := MayUse(c, alive, priority[i], t);
      assert (i > 0 ==> !CanUse(t, alive, priority[0])) && (i > 1 ==> !CanUse(t, alive, priority[1]))
          && (i > 2 ==> !CanUse(t, alive, priority[2]));
      if usable { return priority[i]; }
    }
    assert !CanUse(t, alive, priority[0]) && !CanUse(t, alive, priority[1])
        && !CanUse(t, alive, priority[2]) && !CanUse(t, alive, priority[3]);
    return 0;
  }

  method RestoreSidearms(players: array<Player>) returns (changed: seq<PlayerId>)
    requires forall k :: 0 <= k < players.Length ==> Canonical(players[k].inventory)
    modifies players
    ensures forall k :: 0 <= k < players.Length ==> players[k] == Restored(old(players[k])).0
    ensures changed == Reported(old(players[..]))
  {
    hide Restored, Canonical;
    ghost var before := players[..];
    changed := [];
    for index := 0 to players.Length
      invariant changed == Reported(before[..index])
      invariant forall k :: 0 <= k < index ==> players[k] == Restored(before[k]).0
      invariant forall k :: index <= k < players.Length ==> players[k] == before[k]
    {
      assert before[..index + 1][..index] == before[..index];
      var restored, updated := RestoreOne(players[index]);
      players[index] := restored;
      if updated { changed := changed + [restored.id]; }
      RestoredId(before[index]);
    }
    assert before[..players.Length] == before;
  }

  lemma RestoredId(p: Player)
    ensures Restored(p).0.id == p.id
  {
  }

  // ---- a missing pistol is always restored ----

  lemma ManyStacks(t: Held)
    requires Proper(t) && PISTOL !in t && |t| >= 3 + Amount(t, SATCHEL) * SATCHEL_BONUS
    ensures exists item :: item in t && item !in {BATON, PISTOL, BULLET, SATCHEL}
  {
    var few := if SATCHEL in t then {BATON, BULLET, SATCHEL} else {BATON, BULLET};
    assert |few| == if SATCHEL in t then 3 else 2;
    if t.Keys <= few { CardinalityWithin(t.Keys, few); }
  }

  lemma SomeEvictable(t: Held, item: Item)
    requires Proper(t) && item in t && item !in {BATON, PISTOL, BULLET, SATCHEL}
    ensures Evictable(t, item) && FirstEvictable(t, 0).Some?
  {
    assert Evictable(t, item) && item <= WOOD;
    hide Evictable, FirstEvictable;
    var first := FirstEvictable(t, 0);
  }

  lemma SatchelsStay(t: Held)
    requires Proper(t) && |t| >= 3 + Amount(t, SATCHEL) * SATCHEL_BONUS
    ensures !Evictable(t, SATCHEL)
  {
    if SATCHEL in t {
      RemovedWhole(t, SATCHEL, t[SATCHEL]);
      RemovedSize(t, SATCHEL);
    }
  }

  // Without room for the pistol no satchel can be evicted, and whatever is evicted makes room.
  lemma EvictionMakesRoom(t: Held)
    requires Proper(t) && Fits(t, SLOT_COUNT) && PISTOL !in t && !CanAdd(t, PISTOL, 1, SLOT_COUNT)
    ensures Evicted(t).updated && CanAdd(Evicted(t).held, PISTOL, 1, SLOT_COUNT)
  {
    WithSize(t, PISTOL, 1);
    ManyStacks(t);
    var item :| item in t && item !in {BATON, PISTOL, BULLET, SATCHEL};
    SomeEvictable(t, item);
    var first := FirstEvictable(t, 0).value;
    hide FirstEvictable;
    RemovedSize(t, first);
    SatchelsStay(t);
    WithSize(t - {first}, PISTOL, 1);
  }

  lemma PistolComesBack(t: Held)
    requires Proper(t) && Fits(t, SLOT_COUNT)
    ensures PISTOL in t ==> PistolRestored(t) == Outcome(t, false)
    ensures PISTOL !in t ==> PistolRestored(t).updated
  {
    hide Evicted, CanAdd;
    if PISTOL !in t && !CanAdd(t, PISTOL, 1, SLOT_COUNT) { EvictionMakesRoom(t); }
  }

  // ---- when nothing is reported ----

  // Nothing to report: the refitted stacks hold a pistol, and neither a baton nor bullets nor
  // another weapon in hand is called for.
  ghost predicate Quiet(p: Player) {
    var t := Refit(Inventory.Held(p.inventory));
    && PISTOL in t && (BATON in t || !CanAdd(t, BATON, 1, SLOT_COUNT))
    && BULLET !in t && p.bullets <= AMMO_MAX && (p.bullets == 0 || !CanAdd(t, BULLET, p.bullets, SLOT_COUNT))
    && Equipped(t, p.alive, p.equipped) == p.equipped
  }

  lemma ReportedUnlessQuiet(p: Player)
    requires p.authority
    ensures Restored(p).1 <==> !Quiet(p)
    ensures Quiet(p) ==>
      Restored(p).0 == p.(slots := SLOT_COUNT, inventory := Listing(Refit(Inventory.Held(p.inventory))))
  {
    hide Listing, Refitted, Inventory.Held, CanAdd, Added, Evicted, Preferred;
    var t := Inventory.Held(p.inventory);
    RefitSound(t) by { HeldProper(p.inventory); }
    PistolComesBack(Refit(t));
    assert BULLET !in Refit(t) ==> Refit(t) - {BULLET} == Refit(t);
  }

  lemma RefitSound(t: Held)
    requires Proper(t)
    ensures Proper(Refit(t)) && Fits(Refit(t), SLOT_COUNT)
  {
    ListingCanonical(t);
    RefittedAtMost(Listing(t), SLOT_COUNT, 0);
    RefittedFits(Listing(t), SLOT_COUNT);
  }

  // ---- when a refit loses nothing ----

  lemma {:induction false} IndexSize(list: seq<ItemStack>)
    requires Clean(list)
    ensures |Index(list)| == |list|
  {
    if list != [] {
      var n := |list| - 1;
      IndexSize(list[..n]);
      IndexMember(list[..n], list[n].id);
      assert Index(list).Keys == Index(list[..n]).Keys + {list[n].id};
    }
  }

  // There is room for the n-th stack after those before it.
  ghost predicate RoomFor(list: seq<ItemStack>, n: nat, base: nat)
    requires n < |list|
  {
    n + 1 <= Limit(Index(list[..n + 1]), base)
  }

  lemma {:induction false} RefittedWhole(list: seq<ItemStack>, base: nat)
    requires Clean(list) && forall n :: 0 <= n < |list| ==> RoomFor(list, n, base)
    ensures Refitted(list, base) == Index(list)
  {
    if list != [] {
      var n := |list| - 1;
      var front, last := list[..n], list[n];
      forall m | 0 <= m < n ensures RoomFor(front, m, base) {
        assert RoomFor(list, m, base);
        assert front[..m + 1] == list[..m + 1];
      }
      RefittedWhole(front, base);
      IndexMember(front, last.id);
      IndexSize(list);
      assert RoomFor(list, n, base) && list[..n + 1] == list;
      assert Added(Index(front), last.id, last.body) == Index(list);
    }
  }

  lemma {:induction false} NotListed(list: seq<ItemStack>, base: nat, item: Item)
    requires forall i :: 0 <= i < |list| ==> list[i].id != item
    ensures item !in Refitted(list, base)
  {
    if list != [] { NotListed(list[..|list| - 1], base, item); }
  }

  // Without a satchel a new stack gets in while there are bare slots.
  lemma BareSlots(before: Held, item: Item, amount: uint8, base: nat)
    requires IsKnown(item) && item != SATCHEL && amount > 0 && item !in before && SATCHEL !in before
    ensures CanAdd(before, item, amount, base) <==> |before| < base
    ensures CanAdd(before, item, amount, base) ==> |Added(before, item, amount)| == |before| + 1
  {
    StoredSize(before, item, amount);
  }

  lemma RefitNext(list: seq<ItemStack>, base: nat)
    requires list != []
    ensures Refitted(list, base) ==
      var before, last := Refitted(list[..|list| - 1], base), list[|list| - 1];
      if CanAdd(before, last.id, last.body, base) then Added(before, last.id, last.body) else before
  {
  }

  // Stacks before the satchel get the bare slots only.
  lemma {:induction false} FewBeforeSatchel(list: seq<ItemStack>, base: nat)
    requires Clean(list) && forall i :: 0 <= i < |list| ==> list[i].id < SATCHEL
    ensures |Refitted(list, base)| == if |list| <= base then |list| else base
  {
    if list != [] {
      var front, last := list[..|list| - 1], list[|list| - 1];
      FewBeforeSatchel(front, base);
      NotListed(front, base, last.id);
      NotListed(front, base, SATCHEL);
      RefitNext(list, base);
      hide Refitted, CanAdd, Added;
      BareSlots(Refitted(front, base), last.id, last.body, base);
    }
  }

  // An item that is kept was kept when its stack came up.
  lemma {:induction false} KeptWhenListed(list: seq<ItemStack>, base: nat, k: nat)
    requires Clean(list) && k < |list| && list[k].id in Refitted(list, base)
    ensures CanAdd(Refitted(list[..k], base), list[k].id, list[k].body, base)
  {
    var n := |list| - 1;
    if k < n {
      assert list[..n][..k] == list[..k];
      KeptWhenListed(list[..n], base, k);
    } else {
      NotListed(list[..n], base, list[k].id);
    }
  }

  // A pistol survives a refit only among the first three stacks.
  lemma PistolEarly(list: seq<ItemStack>, k: nat)
    requires Canonical(list) && k < |list| && list[k].id == PISTOL && PISTOL in Refitted(list, SLOT_COUNT)
    ensures k <= 2
  {
    var front := list[..k];
    FewBeforeSatchel(front, SLOT_COUNT);
    KeptWhenListed(list, SLOT_COUNT, k);
    NotListed(front, SLOT_COUNT, SATCHEL);
    NotListed(front, SLOT_COUNT, PISTOL);
    StoredSize(Refitted(front, SLOT_COUNT), PISTOL, list[k].body);
    hide Refitted;
  }

  lemma SatchelNext(list: seq<ItemStack>, k: nat, n: nat)
    requires Canonical(list) && k < n < |list| && list[k].id == PISTOL
    ensures Amount(Index(list[..n + 1]), SATCHEL) == Amount(Index(list), SATCHEL)
  {
    var prefix := list[..n + 1];
    IndexAt(list);
    IndexAt(prefix);
    IndexMember(list, SATCHEL);
    IndexMember(prefix, SATCHEL);
    if i :| 0 <= i < |list| && list[i].id == SATCHEL {
      var next := list[k + 1];
      assert next.id > PISTOL;
      assert i <= k + 1;
      assert prefix[i] == list[i];
    }
  }

  lemma PistolHeld(t: Held)
    requires Proper(t) && PISTOL in Refit(t)
    ensures PISTOL in Index(Listing(t))
  {
    IndexMember(Listing(t), PISTOL);
    if PISTOL !in Index(Listing(t)) { NotListed(Listing(t), SLOT_COUNT, PISTOL); }
  }

  lemma RoomThroughout(list: seq<ItemStack>, k: nat)
    requires Canonical(list) && k < |list| && k <= 2 && list[k].id == PISTOL
    requires |list| <= Limit(Index(list), SLOT_COUNT)
    ensures forall n :: 0 <= n < |list| ==> RoomFor(list, n, SLOT_COUNT)
  {
    hide Canonical, Index;
    forall n | 0 <= n < |list| ensures RoomFor(list, n, SLOT_COUNT) {
      if n > k { SatchelNext(list, k, n); }
    }
  }

  // A refit that keeps the pistol keeps everything that fitted.
  lemma RefitWhole(list: seq<ItemStack>)
    requires Canonical(list) && PISTOL in Refitted(list, SLOT_COUNT) && PISTOL in Index(list)
    requires |list| <= Limit(Index(list), SLOT_COUNT)
    ensures Refitted(list, SLOT_COUNT) == Index(list)
  {
    hide Refitted, Index, Limit;
    IndexMember(list, PISTOL);
    var k :| 0 <= k < |list| && list[k].id == PISTOL;
    PistolEarly(list, k);
    RoomThroughout(list, k);
    RefittedWhole(list, SLOT_COUNT);
  }

  // If the refit keeps the pistol, it keeps everything exactly when everything fitted before.
  lemma RefitExact(t: Held)
    requires Proper(t) && PISTOL in Refit(t)
    ensures Refit(t) == t <==> Fits(t, SLOT_COUNT)
  {
    hide Proper, Refitted, Index, Canonical, Listing, Limit;
    RefitSound(t);
    ListingShape(t);
    ListingCanonical(t);
    ListingLength(t);
    PistolHeld(t);
    if Fits(t, SLOT_COUNT) { RefitWhole(Listing(t)); }
  }

  // ---- the exact condition ----

  ghost predicate InOrder(p: Player) { p.slots == SLOT_COUNT && Fits(Inventory.Held(p.inventory), SLOT_COUNT) }

  // The restore of one player is reported or changes nothing, if and only if there is something to
  // report or the player had three slots and fitted into them.
  lemma RestoreCoveredExactly(p: Player)
    requires Canonical(p.inventory)
    ensures (Restored(p).0 == p || Restored(p).1) <==> (!p.authority || !Quiet(p) || InOrder(p))
  {
    if p.authority {
      ReportedUnlessQuiet(p);
      if Quiet(p) {
        var t := Inventory.Held(p.inventory);
        HeldProper(p.inventory);
        RefitExact(t);
        CanonicalFixed(p.inventory);
        RefitSound(t);
        hide Quiet, Restored, Canonical, Fits;
        SameListing(Refit(t), t);
      }
    }
  }

  lemma SameListing(a: Held, b: Held)
    ensures Listing(a) == Listing(b) <==> a == b
  {
    ListingShape(a);
    ListingShape(b);
  }

  lemma {:induction false} ReportedIds(players: seq<Player>, id: PlayerId)
    ensures id in Reported(players) <==> exists k :: 0 <= k < |players| && Restored(players[k]).1 && players[k].id == id
  {
    hide Restored;
    if players != [] {
      var n := |players| - 1;
      ReportedIds(players[..n], id);
      if k :| 0 <= k < |players| && Restored(players[k]).1 && players[k].id == id {
        if k < n { assert players[..n][k] == players[k]; }
      }
      if k :| 0 <= k < n && Restored(players[..n][k]).1 && players[..n][k].id == id {
        assert players[k] == players[..n][k];
      }
    }
  }

  // The returned ids cover every change if and only if every authority with nothing to report had
  // three slots and fitted into them.
  lemma ReportCoversExactly(players: seq<Player>)
    requires forall k :: 0 <= k < |players| ==> Canonical(players[k].inventory)
    requires forall j, k :: 0 <= j < k < |players| ==> players[j].id != players[k].id
    ensures (forall k ::
          0 <= k < |players| && Restored(players[k]).0 != players[k] ==> players[k].id in Reported(players))
      <==> (forall k :: 0 <= k < |players| && players[k].authority && Quiet(players[k]) ==> InOrder(players[k]))
  {
    hide Restored, Quiet, InOrder, Reported, Canonical;
    forall k | 0 <= k < |players|
      ensures players[k].id in Reported(players) <==> Restored(players[k]).1
      ensures (Restored(players[k]).0 == players[k] || Restored(players[k]).1)
        <==> (!players[k].authority || !Quiet(players[k]) || InOrder(players[k]))
    {
      ReportedIds(players, players[k].id);
      RestoreCoveredExactly(players[k]);
    }
  }

  // ---- a change that goes unreported ----

  // A warden without ammunition whose satchel was taken, left with a fourth stack.
  const OVERLOADED := Player(1, true, true, SLOT_COUNT,
    [Record(BATON, 1), Record(PISTOL, 1), Record(WIRE_CUTTERS, 1), Record(WOOD, 1)], 0, PISTOL)

  const TWO_STACKS: seq<ItemStack> := [Record(BATON, 1)] + [Record(PISTOL, 1)]
  const THREE_STACKS: seq<ItemStack> := TWO_STACKS + [Record(WIRE_CUTTERS, 1)]
  const TWO: Held := map[BATON := 1, PISTOL := 1]
  const THREE: Held := map[BATON := 1, PISTOL := 1, WIRE_CUTTERS := 1]
  const FOUR: Held := map[BATON := 1, PISTOL := 1, WIRE_CUTTERS := 1, WOOD := 1]

  lemma OverloadedIndex()
    ensures OVERLOADED.inventory == THREE_STACKS + [Record(WOOD, 1)]
    ensures Index(TWO_STACKS) == TWO && Index(THREE_STACKS) == THREE && Index(OVERLOADED.inventory) == FOUR
  {
    var one: seq<ItemStack> := [Record(BATON, 1)];
    assert |one[..0]| == 0;
    IndexAppend(one, Record(PISTOL, 1));
    IndexAppend(TWO_STACKS, Record(WIRE_CUTTERS, 1));
    IndexAppend(THREE_STACKS, Record(WOOD, 1));
  }

  lemma NextCanonical(front: seq<ItemStack>, last: ItemStack)
    requires Canonical(front) && IsKnown(last.id) && last.body > 0
    requires front != [] ==> front[|front| - 1].id < last.id
    ensures Canonical(front + [last])
  {
  }

  lemma CanonicalHeld(list: seq<ItemStack>)
    requires Canonical(list)
    ensures Inventory.Held(list) == Index(list) && Listing(Index(list)) == list
  {
    CleanHeld(list);
    CanonicalFixed(list);
    hide Canonical, Index, Inventory.Held, Listing;
  }

  lemma OverloadedHolds()
    ensures Canonical(OVERLOADED.inventory) && Inventory.Held(OVERLOADED.inventory) == FOUR
    ensures Listing(FOUR) == OVERLOADED.inventory
  {
    OverloadedIndex();
    var one: seq<ItemStack> := [Record(BATON, 1)];
    assert Canonical(one);
    hide Canonical, Index, Inventory.Held, Listing;
    NextCanonical(one, Record(PISTOL, 1));
    NextCanonical(TWO_STACKS, Record(WIRE_CUTTERS, 1));
    NextCanonical(THREE_STACKS, Record(WOOD, 1));
    CanonicalHeld(OVERLOADED.inventory);
  }

  lemma RefittedTwo()
    ensures Refitted(TWO_STACKS, SLOT_COUNT) == TWO
  {
    var one: seq<ItemStack> := [Record(BATON, 1)];
    assert TWO_STACKS[..1] == one && |one[..0]| == 0;
    RefitNext(one, SLOT_COUNT);
    RefitNext(TWO_STACKS, SLOT_COUNT);
    BareSlots(map[], BATON, 1, SLOT_COUNT);
    assert Refitted(one, SLOT_COUNT) == map[BATON := 1];
    hide Refitted;
    BareSlots(map[BATON := 1], PISTOL, 1, SLOT_COUNT);
  }

  lemma RefittedThree()
    ensures Refitted(THREE_STACKS, SLOT_COUNT) == THREE
  {
    RefittedTwo();
    RefitNext(THREE_STACKS, SLOT_COUNT);
    hide Refitted, CanAdd;
    assert THREE_STACKS[..2] == TWO_STACKS;
    BareSlots(TWO, WIRE_CUTTERS, 1, SLOT_COUNT);
    assert |TWO| == 2;
  }

  lemma OverloadedRefit()
    ensures Refit(FOUR) == THREE
  {
    hide Refitted, Listing, Inventory.Held, Canonical, CanAdd, Added;
    OverloadedHolds();
    RefittedThree();
    RefitNext(OVERLOADED.inventory, SLOT_COUNT);
    assert OVERLOADED.inventory[..3] == THREE_STACKS;
    BareSlots(THREE, WOOD, 1, SLOT_COUNT);
    assert |THREE| == 3;
  }

  lemma LossUnreported()
    ensures Restored(OVERLOADED).0 != OVERLOADED && Reported([OVERLOADED]) == []
  {
    OverloadedRefit();
    OverloadedHolds();
    assert |FOUR| == 4 && Amount(FOUR, SATCHEL) == 0;
    assert Quiet(OVERLOADED) && !InOrder(OVERLOADED);
    hide Quiet, InOrder, Restored, Refitted, Listing;
    RestoreCoveredExactly(OVERLOADED);
    assert |[OVERLOADED][..0]| == 0;
  }
}
