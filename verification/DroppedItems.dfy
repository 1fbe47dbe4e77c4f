// The tags of a dropped item, built when it is dropped and parsed when it is picked up
// (internal/gamecore/items/inventory.go).

module DroppedItems {
  import opened Records
  import opened State
  import opened Inventory

  const ITEM_PREFIX := "item:"
  const QTY_PREFIX := "qty:"
  const MARKER := "dropped_item"
  const CONTRABAND := "contraband"

  const NAMES: seq<string> := [
    "badge", "baton", "bullet", "door_stop", "golden_bullet", "hunting_rifle", "keys", "ladder", "lock_pick",
    "metal_slab", "pistol", "satchel", "shiv", "shovel", "silencer", "wire_cutters", "wood"]

  function NameOf(item: Item): string {
    if IsKnown(item) then NAMES[item - 1] else ""
  }

  // The known item of that name, or 0.
  function ItemNamed(name: string, from: nat): Item
    requires from <= |NAMES|
    decreases |NAMES| - from
  {
    if from == |NAMES| then 0 else if NAMES[from] == name then from + 1 else ItemNamed(name, from + 1)
  }

  predicate IsContraband(item: Item) { item in {SHIV, PISTOL, HUNTING_RIFLE, LADDER, SHOVEL, WIRE_CUTTERS} }

  // ---- decimal numbers ----

  predicate IsDigit(c: char) { '0' <= c <= '9' }

  function DigitOf(n: nat): char
    requires n < 10
  {
    '0' + n as char
  }

  // strconv.Itoa of a natural.
  function Itoa(n: nat): string {
    if n < 10 then [DigitOf(n)] else Itoa(n / 10) + [DigitOf(n % 10)]
  }

  function DigitsValue(s: string): Option<nat> {
    if s == [] then Some(0)
    else
      var n := |s| - 1;
      var front := DigitsValue(s[..n]);
      if front.None? || !IsDigit(s[n]) then None else Some(front.value * 10 + (s[n] as nat - '0' as nat))
  }

  // strconv.Atoi: an optional sign and at least one digit.
  function Atoi(s: string): Option<int> {
    var digits := if s != [] && (s[0] == '-' || s[0] == '+') then s[1..] else s;
    if digits == [] || DigitsValue(digits).None? then None
    else
      var value: int := DigitsValue(digits).value;
      Some(if s[0] == '-' then -value else value)
  }

  lemma {:induction false} ItoaDigits(n: nat)
    ensures Itoa(n) != [] && DigitsValue(Itoa(n)) == Some(n)
    ensures IsDigit(Itoa(n)[0])
  {
    if n < 10 {
      assert Itoa(n)[..0] == [];
    } else {
      ItoaDigits(n / 10);
      assert Itoa(n)[..|Itoa(n)| - 1] == Itoa(n / 10);
    }
  }

  // ---- tags ----

  predicate HasPrefix(s: string, prefix: string) { |s| >= |prefix| && s[..|prefix|] == prefix }

  function Quantity(quantity: uint8): uint8 { if quantity == 0 then 1 else quantity }

  // The tags before sorting.
  function Tags(item: Item, quantity: uint8): seq<string> {
    [MARKER, ITEM_PREFIX + NameOf(item), QTY_PREFIX + Itoa(Quantity(quantity))]
    + (if IsContraband(item) then [CONTRABAND] else [])
  }

  // The scan so far: failed, or the item (0 for none yet) and the quantity.
  datatype Scan = Failed | Seen(item: Item, quantity: uint8)

  function Scanned(s: Scan, tag: string): Scan {
    if s.Failed? then s
    else if HasPrefix(tag, ITEM_PREFIX) then
      var candidate := ItemNamed(tag[|ITEM_PREFIX|..], 0);
      if candidate == 0 then Failed else s.(item := candidate)
    else if HasPrefix(tag, QTY_PREFIX) then
      var parsed := Atoi(tag[|QTY_PREFIX|..]);
      if parsed.None? || parsed.value <= 0 || parsed.value > 255 then Failed else s.(quantity := parsed.value)
    else s
  }

  function ScanAll(tags: seq<string>): Scan {
    if tags == [] then Seen(0, 1) else Scanned(ScanAll(tags[..|tags| - 1]), tags[|tags| - 1])
  }

  method ParseDroppedItem(isDropped: bool, tags: seq<string>) returns (parsed: Option<(Item, uint8)>)
    ensures parsed == if !isDropped || ScanAll(tags).Failed? || ScanAll(tags).item == 0 then None
                      else Some((ScanAll(tags).item, ScanAll(tags).quantity))
  {
    if !isDropped { return None; }
    var item: Item, quantity: uint8 := 0, 1;
    for i := 0 to |tags|
      invariant ScanAll(tags[..i]) == Seen(item, quantity)
    {
      assert tags[..i + 1][..i] == tags[..i];
      var tag := tags[i];
      if HasPrefix(tag, ITEM_PREFIX) {
        var candidate := ItemNamed(tag[|ITEM_PREFIX|..], 0);
        if candidate == 0 {
          FailureStays(tags, i + 1);
          return None;
        }
        item := candidate;
        continue;
      }
      if HasPrefix(tag, QTY_PREFIX) {
        var number := Atoi(tag[|QTY_PREFIX|..]);
        if number.None? || number.value <= 0 || number.value > 255 {
          FailureStays(tags, i + 1);
          return None;
        }
        quantity := number.value;
      }
    }
    assert tags[..|tags|] == tags;
    if item == 0 { return None; }
    return Some((item, quantity));
  }

  lemma {:induction false} FailureStays(tags: seq<string>, k: nat)
    requires k <= |tags| && ScanAll(tags[..k]).Failed?
    ensures ScanAll(tags).Failed?
    decreases |tags|
  {
    if k == |tags| {
      assert tags[..k] == tags;
    } else {
      assert tags[..|tags| - 1][..k] == tags[..k];
      FailureStays(tags[..|tags| - 1], k);
    }
  }

  lemma NamesDistinct(i: nat, j: nat)
    requires i < j < |NAMES|
    ensures NAMES[i] != NAMES[j]
  {
    if |NAMES[i]| == |NAMES[j]| {
      assert NAMES[i][0] != NAMES[j][0] || NAMES[i][1] != NAMES[j][1] || NAMES[i][2] != NAMES[j][2];
    }
  }

  lemma {:induction false} NamedFrom(item: Item, start: nat)
    requires IsKnown(item) && start < item
    ensures ItemNamed(NameOf(item), start) == item
    decreases item - start
  {
    if start + 1 < item {
      NamesDistinct(start, item - 1);
      NamedFrom(item, start + 1);
    }
  }

  lemma PrefixRead(prefix: string, rest: string)
    ensures HasPrefix(prefix + rest, prefix) && (prefix + rest)[|prefix|..] == rest
  {
  }

  lemma OtherPrefix(tag: string, prefix: string)
    requires tag != [] && prefix != [] && tag[0] != prefix[0]
    ensures !HasPrefix(tag, prefix)
  {
  }

  // The item tag and the quantity tag are read back; the other two are passed over.
  lemma TagsRead(item: Item, quantity: uint8, s: Scan)
    requires IsKnown(item) && s.Seen?
    ensures Scanned(s, ITEM_PREFIX + NameOf(item)) == s.(item := item)
    ensures Scanned(s, QTY_PREFIX + Itoa(Quantity(quantity))) == s.(quantity := Quantity(quantity))
    ensures Scanned(s, MARKER) == s && Scanned(s, CONTRABAND) == s
  {
    PrefixRead(ITEM_PREFIX, NameOf(item));
    PrefixRead(QTY_PREFIX, Itoa(Quantity(quantity)));
    assert ITEM_PREFIX[0] == 'i' && QTY_PREFIX[0] == 'q' && MARKER[0] == 'd' && CONTRABAND[0] == 'c';
    NamedFrom(item, 0);
    ItoaDigits(Quantity(quantity));
    hide HasPrefix, NameOf, Itoa;
    OtherPrefix(QTY_PREFIX + Itoa(Quantity(quantity)), ITEM_PREFIX);
    OtherPrefix(MARKER, ITEM_PREFIX);
    OtherPrefix(MARKER, QTY_PREFIX);
    OtherPrefix(CONTRABAND, ITEM_PREFIX);
    OtherPrefix(CONTRABAND, QTY_PREFIX);
  }

  ghost predicate Built(tags: seq<string>, item: Item, quantity: uint8) {
    forall t :: t in tags ==>
      t in {MARKER, CONTRABAND, ITEM_PREFIX + NameOf(item), QTY_PREFIX + Itoa(Quantity(quantity))}
  }

  lemma {:induction false} ScanBuilt(tags: seq<string>, item: Item, quantity: uint8)
    requires IsKnown(item) && Built(tags, item, quantity)
    ensures ScanAll(tags) == Seen(
      if ITEM_PREFIX + NameOf(item) in tags then item else 0,
      if QTY_PREFIX + Itoa(Quantity(quantity)) in tags then Quantity(quantity) else 1)
  {
    hide Scanned, NameOf, Itoa, Quantity;
    if tags != [] {
      var n := |tags| - 1;
      assert tags == tags[..n] + [tags[n]];
      assert forall t :: t in tags[..n] ==> t in tags;
      ScanBuilt(tags[..n], item, quantity);
      TagsRead(item, quantity, ScanAll(tags[..n]));
      TagsDiffer(item, quantity);
      assert tags[n] in tags;
    }
  }

  lemma TagsDiffer(item: Item, quantity: uint8)
    ensures ITEM_PREFIX + NameOf(item) !in {MARKER, CONTRABAND, QTY_PREFIX + Itoa(Quantity(quantity))}
    ensures QTY_PREFIX + Itoa(Quantity(quantity)) !in {MARKER, CONTRABAND}
  {
    assert (ITEM_PREFIX + NameOf(item))[0] == 'i' && (QTY_PREFIX + Itoa(Quantity(quantity)))[0] == 'q';
    assert MARKER[0] == 'd' && CONTRABAND[0] == 'c';
  }

  // Whatever order the tags end up in, parsing what a drop built gives back the item and the
  // quantity, a zero quantity standing for one.
  lemma DropRoundTrip(item: Item, quantity: uint8, tags: seq<string>)
    requires IsKnown(item) && multiset(tags) == multiset(Tags(item, quantity))
    ensures ScanAll(tags) == Seen(item, Quantity(quantity))
  {
    var built := Tags(item, quantity);
    hide NameOf, Itoa, Quantity;
    forall t ensures t in tags <==> t in built {
      assert t in tags <==> t in multiset(tags);
      assert t in built <==> t in multiset(built);
    }
    assert built[1] in built && built[2] in built;
    ScanBuilt(tags, item, quantity);
  }
}
