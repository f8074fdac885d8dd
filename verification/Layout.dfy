/** The layout of a window: how slot numbers of the protocol correspond to slots of inventories. */
module Layout {
  import opened Options

  datatype Area =
    | Storage | CraftingOutput | CraftingInput | Helmet | Chestplate | Leggings | Boots | Hotbar | Offhand
    | FurnaceIngredient | FurnaceFuel | FurnaceOutput | EnchantmentItem | EnchantmentLapis
    | BrewingBottle | BrewingIngredient | BrewingBlazePowder | VillagerInput | VillagerOutput | BeaconPayment
    | AnvilInput1 | AnvilInput2 | AnvilOutput | Saddle | HorseArmor | LlamaCarpet
    | CartographyMap | CartographyPaper | CartographyOutput
    | GrindstoneInput1 | GrindstoneInput2 | GrindstoneOutput
    | LecternBook | LoomBanner | LoomDye | LoomPattern | LoomOutput | StonecutterInput | StonecutterOutput

  /** One row of a window's table: an area of an inventory and how many slots it has. Inventories
    * are numbered; two numbers are the same inventory only if they are equal.
    */
  datatype Region = Region(inventory: nat, area: Area, size: nat)

  datatype Place = Place(inventory: nat, area: Area, slot: nat)

  /** Where a row's slots start: after those of all earlier rows. */
  function Offset(table: seq<Region>, row: nat): nat
    requires row <= |table|
  {
    if row == 0 then 0 else Offset(table, row - 1) + table[row - 1].size
  }

  function Total(table: seq<Region>): nat { Offset(table, |table|) }

  /** The generator's loop over the rows. */
  method Offsets(table: seq<Region>) returns (offsets: seq<nat>)
    ensures |offsets| == |table| && forall r :: 0 <= r < |table| ==> offsets[r] == Offset(table, r)
  {
    offsets := [];
    var slotCounter := 0;
    for r := 0 to |table|
      invariant |offsets| == r && slotCounter == Offset(table, r)
      invariant forall q :: 0 <= q < r ==> offsets[q] == Offset(table, q)
    {
      offsets := offsets + [slotCounter];
      slotCounter := slotCounter + table[r].size;
    }
  }

  /** The generated chain of range tests, from a row on. */
  function IndexToSlotFrom(table: seq<Region>, row: nat, index: nat): Option<Place>
    requires row <= |table|
    decreases |table| - row
  {
    if row == |table| then None
    else if Offset(table, row) <= index < Offset(table, row) + table[row].size then
      Some(Place(table[row].inventory, table[row].area, index - Offset(table, row)))
    else IndexToSlotFrom(table, row + 1, index)
  }

  function IndexToSlot(table: seq<Region>, index: nat): Option<Place> {
    IndexToSlotFrom(table, 0, index)
  }

  /** The generated chain of tests for an area; the slot number itself is not tested. */
  function SlotToIndexFrom(table: seq<Region>, row: nat, p: Place): Option<nat>
    requires row <= |table|
    decreases |table| - row
  {
    if row == |table| then None
    else if table[row].area == p.area && table[row].inventory == p.inventory then Some(p.slot + Offset(table, row))
    else SlotToIndexFrom(table, row + 1, p)
  }

  function SlotToIndex(table: seq<Region>, p: Place): Option<nat> {
    SlotToIndexFrom(table, 0, p)
  }

  /** No area of an inventory has two rows. */
  ghost predicate Distinct(table: seq<Region>) {
    forall q, r :: 0 <= q < r < |table| ==> table[q].inventory != table[r].inventory || table[q].area != table[r].area
  }

  /** The row of an area, if the window has one. */
  ghost predicate RowOf(table: seq<Region>, p: Place, row: int) {
    0 <= row < |table| && table[row].inventory == p.inventory && table[row].area == p.area
  }

  lemma {:induction false} OffsetsGrow(table: seq<Region>, q: nat, r: nat)
    requires q <= r <= |table|
    ensures Offset(table, q) <= Offset(table, r)
    ensures q < r ==> Offset(table, q) + table[q].size <= Offset(table, r)
  {
    if q < r { OffsetsGrow(table, q, r - 1); }
  }

  /** A row's slot numbers lead to its places. */
  lemma {:induction false} FindsRow(table: seq<Region>, from: nat, row: nat, slot: nat)
    requires from <= row < |table| && slot < table[row].size
    ensures IndexToSlotFrom(table, from, Offset(table, row) + slot)
         == Some(Place(table[row].inventory, table[row].area, slot))
    decreases row - from
  {
    if from < row {
      OffsetsGrow(table, from, row);
      FindsRow(table, from + 1, row, slot);
    }
  }

  /** Every slot number below the total is in exactly one row. */
  lemma {:induction false} RowOfIndex(table: seq<Region>, index: nat, n: nat) returns (row: nat)
    requires n <= |table| && index < Offset(table, n)
    ensures row < n && Offset(table, row) <= index < Offset(table, row) + table[row].size
  {
    if index >= Offset(table, n - 1) {
      row := n - 1;
    } else {
      row := RowOfIndex(table, index, n - 1);
    }
  }

  lemma {:induction false} NoRowPastTotal(table: seq<Region>, from: nat, index: nat)
    requires from <= |table| && index >= Total(table)
    ensures IndexToSlotFrom(table, from, index) == None
    decreases |table| - from
  {
    if from < |table| {
      OffsetsGrow(table, from, |table|);
      NoRowPastTotal(table, from + 1, index);
    }
  }

  lemma {:induction false} FindsArea(table: seq<Region>, from: nat, p: Place, row: nat)
    requires Distinct(table) && from <= row && RowOf(table, p, row)
    ensures SlotToIndexFrom(table, from, p) == Some(p.slot + Offset(table, row))
    decreases row - from
  {
    if from < row { FindsArea(table, from + 1, p, row); }
  }

  lemma {:induction false} NoArea(table: seq<Region>, from: nat, p: Place)
    requires from <= |table| && forall row :: !RowOf(table, p, row)
    ensures SlotToIndexFrom(table, from, p) == None
    decreases |table| - from
  {
    if from < |table| {
      assert !RowOf(table, p, from);
      NoArea(table, from + 1, p);
    }
  }

  /** Main result on layouts, one direction: a slot number has a place exactly if it is below the
    * total, and the place leads back to it.
    */
  lemma IndexRoundTrip(table: seq<Region>, index: nat)
    requires Distinct(table)
    ensures IndexToSlot(table, index).Some? <==> index < Total(table)
    ensures index < Total(table) ==> SlotToIndex(table, IndexToSlot(table, index).value) == Some(index)
    ensures index < Total(table) ==>
      var p := IndexToSlot(table, index).value;
      exists row :: RowOf(table, p, row) && p.slot < table[row].size
  {
    if index < Total(table) {
      var row := RowOfIndex(table, index, |table|);
      FindsRow(table, 0, row, index - Offset(table, row));
      var p := IndexToSlot(table, index).value;
      assert RowOf(table, p, row);
      FindsArea(table, 0, p, row);
    } else {
      NoRowPastTotal(table, 0, index);
    }
  }

  /** The other direction: a place has a number exactly if the window has its area, and the number
    * leads back to the place exactly if the slot is within the area.
    */
  lemma SlotRoundTrip(table: seq<Region>, p: Place)
    requires Distinct(table)
    ensures SlotToIndex(table, p).Some? <==> exists row :: RowOf(table, p, row)
    ensures forall row :: RowOf(table, p, row) ==>
      (IndexToSlot(table, SlotToIndex(table, p).value) == Some(p) <==> p.slot < table[row].size)
  {
    if exists row :: RowOf(table, p, row) {
      var row :| RowOf(table, p, row);
      FindsArea(table, 0, p, row);
      if p.slot < table[row].size {
        FindsRow(table, 0, row, p.slot);
      } else {
        IndexRoundTrip(table, SlotToIndex(table, p).value);
      }
    } else {
      NoArea(table, 0, p);
    }
  }

  // ----- the player's own window -----

  const PLAYER: seq<Region> := [
    Region(0, CraftingOutput, 1), Region(0, CraftingInput, 4), Region(0, Helmet, 1), Region(0, Chestplate, 1),
    Region(0, Leggings, 1), Region(0, Boots, 1), Region(0, Storage, 27), Region(0, Hotbar, 9), Region(0, Offhand, 1)]

  const PLAYER_SLOTS := 46

  /** The size of an area of the player's inventory; areas that it does not have have no slots. */
  function PlayerSize(area: Area): nat {
    match area
    case CraftingInput => 4
    case CraftingOutput | Helmet | Chestplate | Leggings | Boots | Offhand => 1
    case Storage => 27
    case Hotbar => 9
    case _ => 0
  }

  function PlayerOffset(area: Area): nat {
    match area
    case CraftingInput => 1
    case Helmet => 5
    case Chestplate => 6
    case Leggings => 7
    case Boots => 8
    case Storage => 9
    case Hotbar => 36
    case Offhand => 45
    case _ => 0
  }

  /** The player's table is laid out at these offsets. */
  lemma PlayerLayout(r: nat)
    requires r < |PLAYER|
    ensures PLAYER[r].size == PlayerSize(PLAYER[r].area) && Offset(PLAYER, r) == PlayerOffset(PLAYER[r].area)
    ensures Total(PLAYER) == PLAYER_SLOTS
  {
    PlayerOffsets();
  }

  lemma PlayerOffsets()
    ensures Offset(PLAYER, 0) == 0 && Offset(PLAYER, 1) == 1 && Offset(PLAYER, 2) == 5 && Offset(PLAYER, 3) == 6
    ensures Offset(PLAYER, 4) == 7 && Offset(PLAYER, 5) == 8 && Offset(PLAYER, 6) == 9 && Offset(PLAYER, 7) == 36
    ensures Offset(PLAYER, 8) == 45 && Offset(PLAYER, 9) == 46
  {
  }

  lemma PlayerIsDistinct()
    ensures Distinct(PLAYER)
  {
  }

  /** The areas that the player's window has are those with slots. */
  lemma PlayerAreas(area: Area, slot: nat)
    ensures PlayerSize(area) > 0 <==> exists r :: RowOf(PLAYER, Place(0, area, slot), r)
  {
    if PlayerSize(area) > 0 {
      var r := match area
        case CraftingOutput => 0 case CraftingInput => 1 case Helmet => 2 case Chestplate => 3 case Leggings => 4
        case Boots => 5 case Storage => 6 case Hotbar => 7 case _ => 8;
      assert RowOf(PLAYER, Place(0, area, slot), r);
    }
  }

  lemma PlayerRow(p: Place, r: nat)
    requires RowOf(PLAYER, p, r)
    ensures p.inventory == 0 && PlayerSize(p.area) == PLAYER[r].size
  {
    PlayerLayout(r);
  }

  /** The round trips in the player's window: exactly the numbers below 46 have places and lead back,
    * and exactly the places in its areas have numbers, which lead back exactly if they are in range.
    */
  lemma PlayerRoundTrips(index: nat, area: Area, slot: nat)
    ensures IndexToSlot(PLAYER, index).Some? <==> index < PLAYER_SLOTS
    ensures index < PLAYER_SLOTS ==> SlotToIndex(PLAYER, IndexToSlot(PLAYER, index).value) == Some(index)
    ensures SlotToIndex(PLAYER, Place(0, area, slot)).Some? <==> PlayerSize(area) > 0
    ensures var p := Place(0, area, slot);
      PlayerSize(area) > 0 ==>
        (IndexToSlot(PLAYER, SlotToIndex(PLAYER, p).value) == Some(p) <==> slot < PlayerSize(area))
  {
    var p := Place(0, area, slot);
    PlayerIsDistinct();
    PlayerLayout(0);
    IndexRoundTrip(PLAYER, index);
    SlotRoundTrip(PLAYER, p);
    PlayerAreas(area, slot);
    if PlayerSize(area) > 0 {
      var r :| RowOf(PLAYER, p, r);
      PlayerRow(p, r);
    }
  }
}
