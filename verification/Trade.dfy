// Transactions with hand-written rollbacks (internal/server/game/manager.go): paying with
// cards, the cell stash, the black market; and the cards themselves
// (internal/gamecore/cards/framework.go). Cards are numbered in the alphabetical order of their
// names; 0 is the empty name.

module Trade {
  import opened Records
  import opened State
  import opened Inventory
  import opened Holdings
  import opened Carriers

  type Card = nat

  const MAX_CARDS_HELD: nat := 3
  const MONEY: Card := 8
  const LAST_CARD: Card := 11

  predicate IsKnownCard(card: Card) { 1 <= card <= LAST_CARD }

  // ---- cards ----

  function CountOf(cards: seq<Card>, card: Card): nat { multiset(cards)[card] }

  function CardAdded(cards: seq<Card>, card: Card): seq<Card> {
    if !IsKnownCard(card) || |cards| >= MAX_CARDS_HELD then cards else InOrder(cards + [card])
  }

  // Without the first occurrence of a card.
  function CardRemoved(cards: seq<Card>, card: Card): seq<Card> {
    if cards == [] then []
    else if cards[0] == card then cards[1..]
    else [cards[0]] + CardRemoved(cards[1..], card)
  }

  function CardsRemoved(cards: seq<Card>, card: Card, times: nat): seq<Card> {
    if times == 0 then cards else CardRemoved(CardsRemoved(cards, card, times - 1), card)
  }

  lemma CardAddedHand(cards: seq<Card>, card: Card)
    ensures multiset(CardAdded(cards, card)) ==
      multiset(cards) + (if IsKnownCard(card) && |cards| < MAX_CARDS_HELD then multiset{card} else multiset{})
  {
    InOrderSame(cards + [card]);
  }

  lemma {:induction false} CardRemovedHand(cards: seq<Card>, card: Card)
    ensures multiset(CardRemoved(cards, card)) == multiset(cards) - multiset{card}
  {
    if cards != [] {
      assert cards == [cards[0]] + cards[1..];
      if cards[0] != card { CardRemovedHand(cards[1..], card); }
    }
  }

  lemma {:induction false} CardsRemovedHand(cards: seq<Card>, card: Card, times: nat)
    requires times <= CountOf(cards, card)
    ensures multiset(CardsRemoved(cards, card, times)) == multiset(cards)[card := CountOf(cards, card) - times]
  {
    if times > 0 {
      CardsRemovedHand(cards, card, times - 1);
      CardRemovedHand(CardsRemoved(cards, card, times - 1), card);
    }
  }

  method AddCard(player: Carrier, card: Card) returns (ok: bool)
    modifies player`cards
    ensures ok <==> IsKnownCard(card) && |old(player.cards)| < MAX_CARDS_HELD
    ensures player.cards == CardAdded(old(player.cards), card)
  {
    if !IsKnownCard(card) { return false; }
    if |player.cards| >= MAX_CARDS_HELD { return false; }
    player.cards := player.cards + [card];
    player.cards := InOrder(player.cards);
    return true;
  }

  lemma {:induction false} CardRemovedAt(cards: seq<Card>, card: Card, k: nat)
    requires k < |cards| && cards[k] == card && forall i :: 0 <= i < k ==> cards[i] != card
    ensures CardRemoved(cards, card) == cards[..k] + cards[k + 1..]
  {
    if k > 0 {
      CardRemovedAt(cards[1..], card, k - 1);
      assert cards[..k] == [cards[0]] + cards[1..][..k - 1];
    }
  }

  method RemoveCard(player: Carrier, card: Card) returns (ok: bool)
    modifies player`cards
    ensures ok <==> IsKnownCard(card) && card in old(player.cards)
    ensures player.cards == if ok then CardRemoved(old(player.cards), card) else old(player.cards)
  {
    if !IsKnownCard(card) || |player.cards| == 0 { return false; }
    for index := 0 to |player.cards|
      invariant player.cards == old(player.cards)
      invariant forall i :: 0 <= i < index ==> player.cards[i] != card
    {
      if player.cards[index] != card { continue; }
      CardRemovedAt(player.cards, card, index);
      player.cards := player.cards[..index] + player.cards[index + 1..];
      return true;
    }
    return false;
  }

  method CountCards(cards: seq<Card>, target: Card) returns (count: nat)
    ensures count == if target == 0 then 0 else CountOf(cards, target)
  {
    if target == 0 || |cards| == 0 { return 0; }
    count := 0;
    for i := 0 to |cards|
      invariant count == CountOf(cards[..i], target)
    {
      assert cards[..i + 1] == cards[..i] + [cards[i]];
      if cards[i] == target { count := count + 1; }
    }
    assert cards[..|cards|] == cards;
  }

  // What putting cards back one at a time restores, up to the hand limit.
  function PutBack(cards: seq<Card>, card: Card, times: nat): seq<Card>
    decreases times
  {
    if times == 0 then cards else PutBack(CardAdded(cards, card), card, times - 1)
  }

  lemma CardAddedSize(cards: seq<Card>, card: Card)
    requires IsKnownCard(card)
    ensures |CardAdded(cards, card)| == if |cards| < MAX_CARDS_HELD then |cards| + 1 else |cards|
  {
    CardAddedHand(cards, card);
    assert |multiset(CardAdded(cards, card))| == |CardAdded(cards, card)|;
    assert |multiset(cards)| == |cards|;
  }

  // After one card more, so many more again.
  lemma OneCardMore(cards: seq<Card>, next: seq<Card>, card: Card, more: nat)
    requires multiset(next) == multiset(cards) + multiset{card}
    ensures multiset(next)[card := CountOf(next, card) + more]
         == multiset(cards)[card := CountOf(cards, card) + 1 + more]
  {
  }

  lemma NoCardMore(cards: seq<Card>, card: Card)
    ensures multiset(cards)[card := CountOf(cards, card)] == multiset(cards)
  {
  }

  lemma {:induction false} PutBackSize(cards: seq<Card>, card: Card, times: nat)
    requires IsKnownCard(card)
    ensures |PutBack(cards, card, times)| ==
      if |cards| >= MAX_CARDS_HELD then |cards|
      else if |cards| + times <= MAX_CARDS_HELD then |cards| + times else MAX_CARDS_HELD
    decreases times
  {
    if times > 0 {
      CardAddedSize(cards, card);
      hide CardAdded;
      PutBackSize(CardAdded(cards, card), card, times - 1);
    }
  }

  lemma PutBackNext(cards: seq<Card>, card: Card, times: nat)
    requires IsKnownCard(card) && |cards| + times <= MAX_CARDS_HELD
    ensures times == 0 ==> PutBack(cards, card, times) == cards
    ensures times > 0 ==>
      var next := CardAdded(cards, card);
      && PutBack(cards, card, times) == PutBack(next, card, times - 1)
      && multiset(next) == multiset(cards) + multiset{card} && |next| == |cards| + 1
  {
    CardAddedHand(cards, card);
    CardAddedSize(cards, card);
    hide CardAdded;
  }

  lemma {:induction false} PutBackHand(cards: seq<Card>, card: Card, times: nat)
    requires IsKnownCard(card) && |cards| + times <= MAX_CARDS_HELD
    ensures multiset(PutBack(cards, card, times)) == multiset(cards)[card := CountOf(cards, card) + times]
    decreases times
  {
    hide *;
    PutBackNext(cards, card, times);
    if times == 0 {
      NoCardMore(cards, card);
    } else {
      var next := CardAdded(cards, card);
      PutBackHand(next, card, times - 1);
      OneCardMore(cards, next, card, times - 1);
    }
  }

  method Refund(player: Carrier, target: Card, times: nat)
    modifies player`cards
    ensures player.cards == PutBack(old(player.cards), target, times)
  {
    hide CardAdded;
    var left := times;
    while left > 0
      invariant PutBack(player.cards, target, left) == PutBack(old(player.cards), target, times)
    {
      var _ := AddCard(player, target);
      left := left - 1;
    }
  }

  // After removing some, a card is gone from the hand once all of it has been removed.
  lemma RemovedCount(hand: seq<Card>, target: Card, removed: nat)
    requires removed <= CountOf(hand, target)
    ensures target in CardsRemoved(hand, target, removed) <==> removed < CountOf(hand, target)
  {
    CardsRemovedHand(hand, target, removed);
    assert target in CardsRemoved(hand, target, removed) <==> target in multiset(CardsRemoved(hand, target, removed));
  }

  method ConsumeCards(player: Carrier, target: Card, quantity: uint8) returns (ok: bool)
    modifies player`cards
    ensures ok <==> (
      && target != 0
      && (quantity == 0 || (IsKnownCard(target) && quantity <= CountOf(old(player.cards), target))))
    ensures ok ==> player.cards == CardsRemoved(old(player.cards), target, quantity)
    ensures !ok && IsKnownCard(target) ==>
      var held := CountOf(old(player.cards), target);
      player.cards == PutBack(CardsRemoved(old(player.cards), target, held), target, held)
    ensures !ok && !IsKnownCard(target) ==> player.cards == old(player.cards)
  {
    hide CountOf, CardAdded, CardRemoved;
    if target == 0 { return false; }
    if quantity == 0 { return true; }
    var removed: uint8 := 0;
    while removed < quantity
      invariant removed <= quantity && removed <= CountOf(old(player.cards), target)
      invariant removed > 0 ==> IsKnownCard(target)
      invariant player.cards == CardsRemoved(old(player.cards), target, removed)
      decreases quantity - removed
    {
      RemovedCount(old(player.cards), target, removed);
      var taken := RemoveCard(player, target);
      if !taken {
        Refund(player, target, removed);
        return false;
      }
      removed := removed + 1;
    }
    return true;
  }

  // A payment that fails gives the whole hand back exactly when it was within the hand limit
  // or had none of the card.
  lemma FailedPaymentRestores(hand: seq<Card>, target: Card)
    requires IsKnownCard(target)
    ensures var held := CountOf(hand, target);
      multiset(PutBack(CardsRemoved(hand, target, held), target, held)) == multiset(hand)
      <==> |hand| <= MAX_CARDS_HELD || held == 0
  {
    var held := CountOf(hand, target);
    var left := CardsRemoved(hand, target, held);
    CardsRemovedHand(hand, target, held);
    assert |multiset(hand)| == |hand| && |multiset(left)| == |left|;
    PutBackSize(left, target, held);
    if |left| + held <= MAX_CARDS_HELD { PutBackHand(left, target, held); }
    assert |multiset(PutBack(left, target, held))| == |PutBack(left, target, held)|;
  }

  // ---- the cell stash ----

  class Cell {
    var stash: seq<ItemStack>

    constructor (stash: seq<ItemStack>)
      ensures this.stash == stash
    {
      this.stash := stash;
    }

    ghost function Holds(): Held
      reads this
    {
      Inventory.Held(stash)
    }
  }

  function AtLeastOne(amount: uint8): uint8 { if amount == 0 then 1 else amount }

  // What the player is left holding when the stash turns the deposit down.
  ghost function AfterRefusal(t: Held, item: Item, amount: uint8, base: nat): Held
    requires CanTake(t, item, amount)
  {
    if Fits(t, base) then t else Taken(t, item, amount)
  }

  method DepositInStash(player: Carrier, cell: Cell, item: Item, stashAmount: uint8) returns (ok: bool)
    modifies player`inventory, cell`stash
    ensures var amount, before := AtLeastOne(stashAmount), old(player.Holds());
      && (ok <==> (CanRemove(before, item, amount, player.Base())
                   && CanAdd(old(cell.Holds()), item, amount, BASE_STACK_LIMIT)))
      && (ok ==> player.inventory == Listing(Taken(before, item, amount)))
      && (ok ==> cell.stash == Listing(Added(old(cell.Holds()), item, amount)))
      && (!ok ==> cell.stash == old(cell.stash))
      && (!ok && !CanRemove(before, item, amount, player.Base()) ==> player.inventory == old(player.inventory))
      && (!ok && CanRemove(before, item, amount, player.Base()) ==>
           player.inventory == Listing(AfterRefusal(before, item, amount, player.Base())))
  {
    hide Listing, Fits, CanAdd, Inventory.Held;
    var amount := AtLeastOne(stashAmount);
    ghost var t := player.Holds();
    HeldProper(player.inventory);
    var removed := RemoveItem(player, item, amount);
    if !removed { return false; }
    TakenListed(old(player.inventory), item, amount);
    TakeCanBeUndone(t, item, amount, player.Base());
    var stashCarrier := new Carrier(0, cell.stash, 0, []);
    var stored := AddItem(stashCarrier, item, amount);
    if !stored {
      var _ := AddItem(player, item, amount);
      return false;
    }
    cell.stash := stashCarrier.inventory;
    return true;
  }

  method WithdrawFromStash(player: Carrier, cell: Cell, item: Item, stashAmount: uint8) returns (ok: bool)
    modifies player`inventory, cell`stash
    ensures var amount := AtLeastOne(stashAmount);
      && (ok <==> (CanRemove(old(cell.Holds()), item, amount, BASE_STACK_LIMIT)
                   && CanAdd(old(player.Holds()), item, amount, player.Base())))
      && (ok ==> player.inventory == Listing(Added(old(player.Holds()), item, amount)))
      && (ok ==> cell.stash == Listing(Taken(old(cell.Holds()), item, amount)))
      && (!ok ==> player.inventory == old(player.inventory) && cell.stash == old(cell.stash))
  {
    hide Listing, CanAdd, Inventory.Held;
    var amount := AtLeastOne(stashAmount);
    var stashCarrier := new Carrier(0, cell.stash, 0, []);
    var taken := RemoveItem(stashCarrier, item, amount);
    if !taken { return false; }
    var added := AddItem(player, item, amount);
    if !added {
      var _ := AddItem(stashCarrier, item, amount);
      return false;
    }
    cell.stash := stashCarrier.inventory;
    return true;
  }

  // A refused deposit leaves the player's holdings as they were exactly when the player's own
  // stacks fitted to begin with: the refund goes through the capacity check.
  lemma RefusedDepositKeeps(t: Held, item: Item, amount: uint8, base: nat)
    requires Proper(t) && CanTake(t, item, amount)
    ensures AfterRefusal(t, item, amount, base) == t <==> Fits(t, base)
  {
    assert Amount(Taken(t, item, amount), item) < Amount(t, item);
  }

  // A player can end up in that position: giving away the satchel that made room for a fourth
  // stack leaves four stacks for three slots, and a deposit refused then destroys the item.
  lemma OverfullDepositLoses()
    ensures var t: Held := map[BATON := 1, SATCHEL := 1, SHIV := 1, WOOD := 1, KEYS := 1];
      && Fits(t, 3) && CanTake(t, SATCHEL, 1)
      && var left := Taken(t, SATCHEL, 1);
      && !Fits(left, 3) && CanRemove(left, WOOD, 1, 3)
      && Amount(AfterRefusal(left, WOOD, 1, 3), WOOD) == 0
  {
    var t: Held := map[BATON := 1, SATCHEL := 1, SHIV := 1, WOOD := 1, KEYS := 1];
    assert Taken(t, SATCHEL, 1) == map[BATON := 1, SHIV := 1, WOOD := 1, KEYS := 1];
  }

  // ---- the black market ----

  datatype Offer = Offer(item: Item, quantity: uint8, moneyCost: uint8)

  function OfferFor(item: Item): Option<Offer> {
    if item in {WOOD, METAL_SLAB, BULLET, LOCK_PICK} then Some(Offer(item, 1, 1))
    else if item in {SHIV, DOOR_STOP, SILENCER, SATCHEL, WIRE_CUTTERS} then Some(Offer(item, 1, 2))
    else if item in {PISTOL, HUNTING_RIFLE, GOLDEN_BULLET} then Some(Offer(item, 1, 3))
    else None
  }

  ghost predicate HoldsGolden(t: Held) { Amount(t, GOLDEN_BULLET) >= 1 }

  ghost predicate GoldenDropped(dropped: seq<ItemStack>) {
    exists k :: 0 <= k < |dropped| && dropped[k].id == GOLDEN_BULLET && dropped[k].body > 0
  }

  // The players and dropped items of a match, and whether its golden bullet was ever sold.
  class Match {
    var players: seq<Carrier>
    var dropped: seq<ItemStack>
    var goldenBulletSold: bool

    ghost predicate ContainsGolden()
      reads this, players
    {
      (exists k :: 0 <= k < |players| && HoldsGolden(players[k].Holds())) || GoldenDropped(dropped)
    }

    method ContainsGoldenBullet() returns (found: bool)
      ensures found <==> ContainsGolden()
    {
      for i := 0 to |players|
        invariant forall k :: 0 <= k < i ==> !HoldsGolden(players[k].Holds())
      {
        var has := HasItem(players[i], GOLDEN_BULLET, 1);
        if has { return true; }
      }
      for i := 0 to |dropped|
        invariant forall k :: 0 <= k < i ==> !(dropped[k].id == GOLDEN_BULLET && dropped[k].body > 0)
      {
        if dropped[i].body == 0 { continue; }
        if dropped[i].id == GOLDEN_BULLET { return true; }
      }
      return false;
    }

    // `admitted` stands for the checks on the buyer: a living prisoner, at night, in the market.
    // Either the goods arrive and exactly the price is paid, or nothing changes.
    method Purchase(player: Carrier, item: Item, admitted: bool) returns (ok: bool)
      modifies this`goldenBulletSold, player`inventory, player`cards
      ensures ok <==> (
        && admitted && OfferFor(item).Some?
        && !(item == GOLDEN_BULLET && (old(goldenBulletSold) || old(ContainsGolden())))
        && OfferFor(item).value.moneyCost <= CountOf(old(player.cards), MONEY)
        && CanAdd(old(player.Holds()), item, 1, player.Base()))
      ensures ok ==>
        && player.inventory == Listing(Added(old(player.Holds()), item, 1))
        && player.cards == CardsRemoved(old(player.cards), MONEY, OfferFor(item).value.moneyCost)
      ensures !ok ==> player.inventory == old(player.inventory) && player.cards == old(player.cards)
      ensures goldenBulletSold == (old(goldenBulletSold) || (ok && item == GOLDEN_BULLET))
    {
      hide Listing, CanAdd, Inventory.Held, HoldsGolden;
      var offer := OfferFor(item);
      if offer.None? { return false; }
      if !admitted { return false; }
      if item == GOLDEN_BULLET {
        var contained := ContainsGoldenBullet();
        if goldenBulletSold || contained { return false; }
      }
      var money := CountCards(player.cards, MONEY);
      if money < offer.value.moneyCost { return false; }
      var added := AddItem(player, offer.value.item, offer.value.quantity);
      if !added { return false; }
      var paid := ConsumeCards(player, MONEY, offer.value.moneyCost);
      // The count above makes the payment certain: the branch that takes the goods back never runs.
      assert paid;
      if item == GOLDEN_BULLET { goldenBulletSold := true; }
      return true;
    }
  }

  // A payment takes exactly the price in the card asked for.
  lemma PaymentExact(hand: seq<Card>, card: Card, price: nat, other: Card)
    requires price <= CountOf(hand, card)
    ensures CountOf(CardsRemoved(hand, card, price), other)
         == CountOf(hand, other) - (if other == card then price else 0)
  {
    CardsRemovedHand(hand, card, price);
  }
}
