/** Item stacks and the slots that hold them. */
module Slots {

  /** The items that the areas of windows tell apart, and all others. */
  datatype Item =
    | LeatherHelmet | ChainmailHelmet | GoldenHelmet | IronHelmet | DiamondHelmet | NetheriteHelmet
    | LeatherChestplate | ChainmailChestplate | GoldenChestplate
    | IronChestplate | DiamondChestplate | NetheriteChestplate
    | LeatherLeggings | ChainmailLeggings | GoldenLeggings | IronLeggings | DiamondLeggings | NetheriteLeggings
    | LeatherBoots | ChainmailBoots | GoldenBoots | IronBoots | DiamondBoots | NetheriteBoots
    | LapisLazuli | GlassBottle | Potion | SplashPotion | LingeringPotion | BlazePowder
    | IronIngot | GoldIngot | Diamond | NetheriteIngot | Emerald | SaddleItem
    | LeatherHorseArmor | IronHorseArmor | GoldenHorseArmor | DiamondHorseArmor | MapItem | FilledMap | Paper
    | Other(id: nat)

  /** The largest stack of each item: at most 64, and 0 for air, of which there is no stack. */
  type Sizes = Item -> Size
  type Size = n: nat | n <= 64

  datatype Slot = Empty | Filled(item: Item, count: nat) {
    function Count(): nat { if Empty? then 0 else count }

    /** How many of one kind of item are in the slot. */
    function Of(kind: Item): nat { if Filled? && item == kind then count else 0 }
  }

  /** Stacks are never empty and never larger than their item allows. */
  ghost predicate Sound(sizes: Sizes, s: Slot) {
    s.Filled? ==> 1 <= s.count <= sizes(s.item)
  }

  // ----- stacks: the checked operations that the slots unwrap -----

  datatype Result<+T> = Ok(value: T) | Err(error: StackError)
  datatype StackError = ClientOverflow | EmptyStack | ExceedsStackSize | NotEnoughItems

  function SetCount(sizes: Sizes, s: Slot, count: nat): (r: Result<Slot>)
    requires s.Filled?
    ensures r.Ok? <==> 1 <= count <= sizes(s.item)
    ensures r.Ok? ==> r.value == s.(count := count)
  {
    if count == 0 then Err(EmptyStack)
    else if count > sizes(s.item) then Err(ExceedsStackSize)
    else if count > 0x7FFF_FFFF then Err(ClientOverflow)
    else Ok(s.(count := count))
  }

  function AddTo(sizes: Sizes, s: Slot, count: nat): Result<Slot>
    requires s.Filled?
  {
    SetCount(sizes, s, s.count + count)
  }

  function RemoveFrom(s: Slot, count: nat): Result<Slot>
    requires s.Filled?
  {
    if s.count <= count then Err(NotEnoughItems) else Ok(s.(count := s.count - count))
  }

  // ----- slots, as specifications -----

  predicate Mergable(sizes: Sizes, a: Slot, b: Slot) {
    a.Filled? && b.Filled? ==> a.item == b.item && sizes(a.item) > 1
  }

  function Less(s: Slot, n: nat): Slot {
    if s.Empty? || s.count <= n then Empty else s.(count := s.count - n)
  }

  function Part(s: Slot, n: nat): Slot {
    if s.Empty? || n == 0 then Empty else if s.count <= n then s else s.(count := n)
  }

  function Min(a: nat, b: nat): nat { if a <= b then a else b }

  /** How many items a transfer of up to `n` moves. */
  function Moved(sizes: Sizes, from: Slot, n: nat, to: Slot): nat
    requires Sound(sizes, to)
  {
    if !Mergable(sizes, from, to) || from.Empty? then 0
    else if to.Empty? then Min(n, from.count)
    else Min(Min(n, sizes(to.item) - to.count), from.count)
  }

  /** The slot `to` with `n` of the items of `from` in it. */
  function With(from: Slot, n: nat, to: Slot): Slot
    requires n > 0 ==> from.Filled?
  {
    if n == 0 then to else from.(count := to.Count() + n)
  }

  // ----- slots, as operations; where the original unwraps there is an assertion -----

  /** Takes up to `amount` items out of a slot. */
  method TryTake(sizes: Sizes, slot: Slot, amount: nat) returns (rest: Slot, taken: Slot)
    requires Sound(sizes, slot)
    ensures taken == Part(slot, amount) && rest == if amount == 0 then slot else Less(slot, amount)
    ensures Sound(sizes, rest) && Sound(sizes, taken)
    ensures forall kind :: rest.Of(kind) + taken.Of(kind) == slot.Of(kind)
  {
    if amount == 0 {
      return slot, Empty;
    }
    if slot.Filled? {
      if slot.count <= amount {
        return Empty, slot;
      }
      var out := SetCount(sizes, slot, amount);
      assert out.Ok?;
      var left := RemoveFrom(slot, amount);
      assert left.Ok?;
      return left.value, out.value;
    }
    return slot, Empty;
  }

  /** Takes half of the items; of an odd number the larger part is taken. */
  method TakeHalf(sizes: Sizes, slot: Slot) returns (rest: Slot, taken: Slot)
    requires Sound(sizes, slot)
    ensures taken.Count() == (slot.Count() + 1) / 2 && rest.Count() == slot.Count() / 2
    ensures taken == Part(slot, (slot.Count() + 1) / 2)
    ensures rest == if slot.Empty? then Empty else Less(slot, (slot.Count() + 1) / 2)
    ensures Sound(sizes, rest) && Sound(sizes, taken)
    ensures forall kind :: rest.Of(kind) + taken.Of(kind) == slot.Of(kind)
  {
    var half := (slot.Count() + 1) / 2;
    rest, taken := TryTake(sizes, slot, half);
  }

  method AddCount(sizes: Sizes, slot: Slot, n: nat) returns (r: Slot)
    requires slot.Filled? && 1 <= slot.count + n <= sizes(slot.item)
    ensures r == slot.(count := slot.count + n)
  {
    assert slot.Filled?;
    var sum := AddTo(sizes, slot, n);
    assert sum.Ok?;
    return sum.value;
  }

  /** Moves up to `n` items, as many as the other slot has room for. */
  method TransferTo(sizes: Sizes, from: Slot, n: nat, to: Slot) returns (from': Slot, to': Slot)
    requires Sound(sizes, from) && Sound(sizes, to)
    ensures var m := Moved(sizes, from, n, to);
      to' == With(from, m, to) && from' == if m == 0 then from else Less(from, m)
    ensures Sound(sizes, from') && Sound(sizes, to')
    ensures forall kind :: from'.Of(kind) + to'.Of(kind) == from.Of(kind) + to.Of(kind)
  {
    from', to' := from, to;
    if !Mergable(sizes, from, to) {
      return;
    }
    if from.Filled? && to.Filled? {
      var space := sizes(to.item) - to.count;
      var moving := Min(Min(n, space), from.count);
      var taken;
      from', taken := TryTake(sizes, from, moving);
      to' := AddCount(sizes, to, taken.Count());
    } else if from.Filled? {
      from', to' := TryTake(sizes, from, n);
    }
  }

  /** Moves as many items as possible from `other` into `slot`, and tells how many. */
  method Merge(sizes: Sizes, slot: Slot, other: Slot) returns (slot': Slot, other': Slot, moved: nat)
    requires Sound(sizes, slot) && Sound(sizes, other)
    ensures (slot', other') == Merged(sizes, slot, other) && moved == Moved(sizes, other, other.Count(), slot)
    ensures Sound(sizes, slot') && Sound(sizes, other')
    ensures forall kind :: slot'.Of(kind) + other'.Of(kind) == slot.Of(kind) + other.Of(kind)
  {
    slot', other', moved := slot, other, 0;
    if !Mergable(sizes, slot, other) {
      return;
    }
    if slot.Filled? && other.Filled? {
      var moving := Min(sizes(slot.item) - slot.count, other.count);
      var taken;
      other', taken := TryTake(sizes, other, moving);
      slot' := AddCount(sizes, slot, taken.Count());
      moved := taken.Count();
    } else if other.Filled? {
      slot', other' := other, slot;
      moved := slot'.Count();
    }
  }

  /** A slot and another one after merging the other into it. */
  function Merged(sizes: Sizes, slot: Slot, other: Slot): (Slot, Slot)
    requires Sound(sizes, slot)
  {
    var m := Moved(sizes, other, other.Count(), slot);
    (With(other, m, slot), if m == 0 then other else Less(other, m))
  }

  /** Merging is maximal: if something is left over of items that could be merged, the slot is full. */
  lemma MergeIsMaximal(sizes: Sizes, slot: Slot, other: Slot)
    requires Sound(sizes, slot) && Sound(sizes, other) && other.Filled?
    ensures var (slot', other') := Merged(sizes, slot, other);
      && Sound(sizes, slot') && Sound(sizes, other')
      && (Mergable(sizes, slot, other) && other'.Filled? ==> slot'.Filled? && slot'.count == sizes(other.item))
      && (slot.Empty? ==> slot' == other && other' == Empty)
      && (forall kind :: slot'.Of(kind) + other'.Of(kind) == slot.Of(kind) + other.Of(kind))
      && (other'.Filled? ==> other'.item == other.item)
      && (slot.Filled? ==> slot'.Filled? && slot'.item == slot.item && slot'.count >= slot.count)
  {
  }
}
