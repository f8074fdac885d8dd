/** What the actions of a player do to the slots of a window and to the cursor, on values. */
module WindowModel {
  import opened Options
  import opened Slots
  import opened Layout

  datatype Mouse = LeftButton | RightButton
  datatype Paint = Paint(mouse: Mouse, slots: seq<nat>)
  datatype State = State(slots: seq<Slot>, cursor: Slot, paint: Option<Paint>)

  ghost predicate AllSound(sizes: Sizes, slots: seq<Slot>) {
    forall i :: 0 <= i < |slots| ==> Sound(sizes, slots[i])
  }

  ghost predicate Within(ts: seq<nat>, n: nat) {
    forall k :: 0 <= k < |ts| ==> ts[k] < n
  }

  // ----- clicks -----

  /** A left click on a slot: merge what is alike, swap everything else. */
  function LeftClicked(sizes: Sizes, slot: Slot, cursor: Slot): (Slot, Slot)
    requires Sound(sizes, slot)
  {
    if slot.Filled? && cursor.Filled? && Mergable(sizes, cursor, slot) then Merged(sizes, slot, cursor)
    else (cursor, slot)
  }

  /** A right click: drop one, take half, or swap. */
  function RightClicked(sizes: Sizes, slot: Slot, cursor: Slot): (Slot, Slot)
    requires Sound(sizes, slot)
  {
    if slot.Filled? && cursor.Filled? then
      if Mergable(sizes, slot, cursor) then
        var m := Moved(sizes, cursor, 1, slot);
        (With(cursor, m, slot), if m == 0 then cursor else Less(cursor, m))
      else (cursor, slot)
    else if slot.Filled? then
      (Less(slot, (slot.count + 1) / 2), Part(slot, (slot.count + 1) / 2))
    else if cursor.Filled? then (Part(cursor, 1), Less(cursor, 1))
    else (slot, cursor)
  }

  // ----- shift-clicks in the player's window -----

  const AREAS_TO_TRY: seq<Area> := [Helmet, Chestplate, Leggings, Boots, CraftingInput, Hotbar, Storage]

  /** Which areas take which items; the leggings area takes a leather helmet and not leather
    * leggings.
    */
  predicate WillAccept(area: Area, s: Slot) {
    match area
    case CraftingOutput | CraftingInput | FurnaceOutput | VillagerOutput | AnvilOutput | CartographyOutput
      | GrindstoneOutput | LoomOutput | StonecutterOutput => false
    case Helmet => s.Filled? && (s.item.LeatherHelmet? || s.item.ChainmailHelmet? || s.item.GoldenHelmet?
                                 || s.item.IronHelmet? || s.item.DiamondHelmet? || s.item.NetheriteHelmet?)
    case Chestplate => s.Filled? && (s.item.LeatherChestplate? || s.item.ChainmailChestplate?
                                     || s.item.GoldenChestplate? || s.item.IronChestplate?
                                     || s.item.DiamondChestplate? || s.item.NetheriteChestplate?)
    case Leggings => s.Filled? && (s.item.LeatherHelmet? || s.item.ChainmailLeggings? || s.item.GoldenLeggings?
                                   || s.item.IronLeggings? || s.item.DiamondLeggings? || s.item.NetheriteLeggings?)
    case Boots => s.Filled? && (s.item.LeatherBoots? || s.item.ChainmailBoots? || s.item.GoldenBoots?
                                || s.item.IronBoots? || s.item.DiamondBoots? || s.item.NetheriteBoots?)
    case EnchantmentLapis => s.Filled? && s.item.LapisLazuli?
    case BrewingBottle => s.Filled? && (s.item.GlassBottle? || s.item.Potion? || s.item.SplashPotion?
                                        || s.item.LingeringPotion?)
    case BrewingBlazePowder => s.Filled? && s.item.BlazePowder?
    case BeaconPayment => s.Filled? && (s.item.IronIngot? || s.item.GoldIngot? || s.item.Diamond?
                                        || s.item.NetheriteIngot? || s.item.Emerald?)
    case Saddle => s.Filled? && s.item.SaddleItem?
    case HorseArmor => s.Filled? && (s.item.LeatherHorseArmor? || s.item.IronHorseArmor?
                                     || s.item.GoldenHorseArmor? || s.item.DiamondHorseArmor?)
    case CartographyMap => s.Filled? && (s.item.MapItem? || s.item.FilledMap?)
    case CartographyPaper => s.Filled? && s.item.Paper?
    case _ => true
  }

  /** The area of a slot number of the player's window. */
  function AreaOf(i: nat): (r: Area)
    requires i < PLAYER_SLOTS
    ensures PlayerOffset(r) <= i < PlayerOffset(r) + PlayerSize(r)
  {
    if i < 1 then CraftingOutput else if i < 5 then CraftingInput else if i < 6 then Helmet
    else if i < 7 then Chestplate else if i < 8 then Leggings else if i < 9 then Boots
    else if i < 36 then Storage else if i < 45 then Hotbar else Offhand
  }

  /** The slot numbers of an area, in order. */
  function Numbers(area: Area): (r: seq<nat>)
    ensures |r| == PlayerSize(area) && forall k :: 0 <= k < |r| ==> r[k] == PlayerOffset(area) + k
  {
    seq(PlayerSize(area), (k: nat) => (PlayerOffset(area) + k) as nat)
  }

  lemma NumbersAreInArea(area: Area)
    ensures Within(Numbers(area), PLAYER_SLOTS)
    ensures forall k :: 0 <= k < PlayerSize(area) ==> AreaOf(Numbers(area)[k]) == area
  {
    forall k | 0 <= k < PlayerSize(area) ensures Numbers(area)[k] < PLAYER_SLOTS && AreaOf(Numbers(area)[k]) == area {
      assert Numbers(area)[k] == PlayerOffset(area) + k;
    }
  }

  predicate Tried(area: Area, from: Area, s: Slot) { area != from && WillAccept(area, s) }

  /** The slots that items from an area are to go to, in the order in which they are tried. */
  function Targets(areas: seq<Area>, from: Area, s: Slot): (r: seq<nat>)
    ensures Within(r, PLAYER_SLOTS)
    ensures forall k :: 0 <= k < |r| ==> Tried(AreaOf(r[k]), from, s)
  {
    if areas == [] then []
    else
      var rest := Targets(areas[1..], from, s);
      if Tried(areas[0], from, s) then
        NumbersAreInArea(areas[0]);
        Numbers(areas[0]) + rest
      else rest
  }

  /** Whether a pass over the targets gives a slot any items: the first pass looks for filled ones,
    * the second for empty ones.
    */
  predicate Fits(sizes: Sizes, existing: bool, slot: Slot, src: Slot) {
    slot.Filled? == existing && Mergable(sizes, src, slot)
  }

  /** One pass over the targets. */
  function Pass(sizes: Sizes, existing: bool, slots: seq<Slot>, src: Slot, ts: seq<nat>): (r: (seq<Slot>, Slot))
    requires AllSound(sizes, slots) && Sound(sizes, src) && Within(ts, |slots|)
    ensures |r.0| == |slots| && AllSound(sizes, r.0) && Sound(sizes, r.1)
    decreases |ts|
  {
    if ts == [] then (slots, src)
    else
      var t := ts[0];
      if src.Filled? && Fits(sizes, existing, slots[t], src) then
        MergeIsMaximal(sizes, slots[t], src);
        var (slot, rest) := Merged(sizes, slots[t], src);
        Pass(sizes, existing, slots[t := slot], rest, ts[1..])
      else Pass(sizes, existing, slots, src, ts[1..])
  }

  function ShiftClicked(sizes: Sizes, slots: seq<Slot>, i: nat): (r: seq<Slot>)
    requires AllSound(sizes, slots) && |slots| == PLAYER_SLOTS && i < |slots|
    ensures |r| == |slots| && AllSound(sizes, r)
  {
    if slots[i].Empty? then slots
    else
      var ts := Targets(AREAS_TO_TRY, AreaOf(i), slots[i]);
      var (slots1, src1) := Pass(sizes, true, slots, slots[i], ts);
      var (slots2, src2) := Pass(sizes, false, slots1, src1, ts);
      slots2[i := src2]
  }

  // ----- painting -----

  /** Gives up to `per` items of the cursor to each of the slots, in order. */
  function Spread(sizes: Sizes, slots: seq<Slot>, cursor: Slot, ts: seq<nat>, per: nat): (r: (seq<Slot>, Slot))
    requires AllSound(sizes, slots) && Sound(sizes, cursor) && Within(ts, |slots|)
    ensures |r.0| == |slots| && AllSound(sizes, r.0) && Sound(sizes, r.1)
    decreases |ts|
  {
    if ts == [] then (slots, cursor)
    else
      var m := Moved(sizes, cursor, per, slots[ts[0]]);
      if m == 0 then Spread(sizes, slots, cursor, ts[1..], per)
      else Spread(sizes, slots[ts[0] := With(cursor, m, slots[ts[0]])], Less(cursor, m), ts[1..], per)
  }

  /** How many of the slots could take the cursor's items. */
  function Takers(sizes: Sizes, slots: seq<Slot>, cursor: Slot, ts: seq<nat>): nat
    requires Within(ts, |slots|)
  {
    if ts == [] then 0
    else Takers(sizes, slots, cursor, ts[..|ts| - 1]) + if Mergable(sizes, slots[ts[|ts| - 1]], cursor) then 1 else 0
  }

  function Share(count: nat, takers: nat): nat
    requires takers > 0
  {
    if count / takers > 1 then count / takers else 1
  }

  /** How many of these numbers come before the first one that is no slot's. */
  function Existing(ts: seq<nat>, n: nat): (k: nat)
    ensures k <= |ts| && Within(ts[..k], n) && (k == |ts| || ts[k] >= n)
  {
    if ts == [] || ts[0] >= n then 0
    else
      var k := Existing(ts[1..], n);
      assert forall j :: 1 <= j < k + 1 ==> ts[j] == ts[1..][..k][j - 1];
      k + 1
  }

  /** The slots of a drag are unwrapped where they are looked at: all of them to count the takers of
    * what the cursor holds in a left drag, and one after the other, until the cursor has been used up,
    * in a right drag. None of those must be missing.
    */
  ghost predicate Finishes(sizes: Sizes, slots: seq<Slot>, cursor: Slot, paint: Paint)
    requires AllSound(sizes, slots) && Sound(sizes, cursor)
  {
    var k := Existing(paint.slots, |slots|);
    || k == |paint.slots|
    || if paint.mouse.LeftButton? then cursor.Empty?
       else k > 0 && Spread(sizes, slots, cursor, paint.slots[..k], 1).1.Empty?
  }

  function Painted(sizes: Sizes, slots: seq<Slot>, cursor: Slot, paint: Paint): (r: (seq<Slot>, Slot))
    requires AllSound(sizes, slots) && Sound(sizes, cursor) && Finishes(sizes, slots, cursor, paint)
    ensures |r.0| == |slots| && AllSound(sizes, r.0) && Sound(sizes, r.1)
  {
    var ts := paint.slots[..Existing(paint.slots, |slots|)];
    match paint.mouse
    case LeftButton =>
      var n := Takers(sizes, slots, cursor, ts);
      if cursor.Empty? || n == 0 then (slots, cursor)
      else Spread(sizes, slots, cursor, ts, Share(cursor.count, n))
    case RightButton => Spread(sizes, slots, cursor, ts, 1)
  }

  // ----- all actions -----

  datatype Action = LeftClick(slot: nat) | RightClick(slot: nat) | ShiftClick(slot: nat)
                  | BeginLeftPaint | BeginRightPaint | AddPaintSlot(slot: nat) | EndPaint

  const MAX_PAINT_SLOTS := 1000

  ghost predicate Valid(sizes: Sizes, w: State) {
    AllSound(sizes, w.slots) && Sound(sizes, w.cursor)
  }

  /** What the original asks of its caller: no slot that it unwraps at the end of a drag is missing,
    * and shift-clicks are in a player's window.
    */
  ghost predicate Allowed(sizes: Sizes, w: State, a: Action)
    requires Valid(sizes, w)
  {
    && (a.EndPaint? && w.paint.Some? ==> Finishes(sizes, w.slots, w.cursor, w.paint.value))
    && (a.ShiftClick? ==> |w.slots| == PLAYER_SLOTS)
  }

  /** The state after an action, and whether the action succeeded. */
  function Act(sizes: Sizes, w: State, a: Action): (r: (State, bool))
    requires Valid(sizes, w) && Allowed(sizes, w, a)
  {
    match a
    case LeftClick(i) =>
      if i >= |w.slots| then (w, false)
      else
        var (slot, cursor) := LeftClicked(sizes, w.slots[i], w.cursor);
        (w.(slots := w.slots[i := slot], cursor := cursor), true)
    case RightClick(i) =>
      if i >= |w.slots| then (w, false)
      else
        var (slot, cursor) := RightClicked(sizes, w.slots[i], w.cursor);
        (w.(slots := w.slots[i := slot], cursor := cursor), true)
    case ShiftClick(i) =>
      if i >= |w.slots| then (w, false) else (w.(slots := ShiftClicked(sizes, w.slots, i)), true)
    case BeginLeftPaint => (w.(paint := Some(Paint(LeftButton, []))), true)
    case BeginRightPaint => (w.(paint := Some(Paint(RightButton, []))), true)
    case AddPaintSlot(i) =>
      (match w.paint
       case None => (w, false)
       case Some(p) => (w.(paint := Some(p.(slots := p.slots + [i]))), |p.slots| + 1 <= MAX_PAINT_SLOTS))
    case EndPaint =>
      (match w.paint
       case None => (w, false)
       case Some(p) =>
         var (slots, cursor) := Painted(sizes, w.slots, w.cursor, p);
         (State(slots, cursor, None), true))
  }
}
