/** The window of a player, whose operations change the slots and the cursor in place. */
module Windows {
  import opened Options
  import opened Slots
  import opened Layout
  import opened WindowModel
  import opened WindowLaws

  /** A pass over two lists of targets is two passes. */
  lemma {:induction false} PassInParts(sizes: Sizes, existing: bool, slots: seq<Slot>, src: Slot, xs: seq<nat>,
                                       ys: seq<nat>)
    requires AllSound(sizes, slots) && Sound(sizes, src) && Within(xs, |slots|) && Within(ys, |slots|)
    ensures Within(xs + ys, |slots|)
    ensures var (mid, rest) := Pass(sizes, existing, slots, src, xs);
      Pass(sizes, existing, slots, src, xs + ys) == Pass(sizes, existing, mid, rest, ys)
    decreases |xs|
  {
    if xs == [] {
      assert xs + ys == ys;
    } else {
      assert (xs + ys)[0] == xs[0] && (xs + ys)[1..] == xs[1..] + ys;
      var t := xs[0];
      if src.Filled? && Fits(sizes, existing, slots[t], src) {
        MergeIsMaximal(sizes, slots[t], src);
        var (slot, rest) := Merged(sizes, slots[t], src);
        PassInParts(sizes, existing, slots[t := slot], rest, xs[1..], ys);
      } else {
        PassInParts(sizes, existing, slots, src, xs[1..], ys);
      }
    }
  }

  lemma {:induction false} PassOfNothing(sizes: Sizes, existing: bool, slots: seq<Slot>, ts: seq<nat>)
    requires AllSound(sizes, slots) && Within(ts, |slots|)
    ensures Pass(sizes, existing, slots, Empty, ts) == (slots, Empty)
    decreases |ts|
  {
    if ts != [] { PassOfNothing(sizes, existing, slots, ts[1..]); }
  }

  /** The first step of a pass, as the window takes it. */
  lemma PassStep(sizes: Sizes, existing: bool, slots: seq<Slot>, src: Slot, ts: seq<nat>)
    requires AllSound(sizes, slots) && Sound(sizes, src) && Within(ts, |slots|) && |ts| > 0
    ensures var (slot, rest) := Merged(sizes, slots[ts[0]], src);
      if slots[ts[0]].Filled? == existing && (existing ==> Mergable(sizes, src, slots[ts[0]]))
      then && AllSound(sizes, slots[ts[0] := slot]) && Sound(sizes, rest)
           && Pass(sizes, existing, slots, src, ts) == Pass(sizes, existing, slots[ts[0] := slot], rest, ts[1..])
      else Pass(sizes, existing, slots, src, ts) == Pass(sizes, existing, slots, src, ts[1..])
  {
    if src.Filled? {
      MergeIsMaximal(sizes, slots[ts[0]], src);
    } else {
      assert slots[ts[0] := slots[ts[0]]] == slots;
    }
  }

  lemma SameKindIsAccepted(area: Area, a: Slot, b: Slot)
    requires a.Filled? && b.Filled? && a.item == b.item
    ensures WillAccept(area, a) == WillAccept(area, b)
  {
  }

  class Window {
    const sizes: Sizes
    const slots: array<Slot>
    var cursor: Slot
    var paint: Option<Paint>

    ghost function Now(): State
      reads this, slots
    {
      State(slots[..], cursor, paint)
    }

    ghost predicate Valid()
      reads this, slots
    {
      WindowModel.Valid(sizes, Now())
    }

    constructor (sizes: Sizes, slots: array<Slot>)
      requires AllSound(sizes, slots[..])
      ensures Valid() && this.sizes == sizes && this.slots == slots && Now() == State(slots[..], Empty, None)
    {
      this.sizes, this.slots, cursor, paint := sizes, slots, Empty, None;
    }

    method LeftClick(i: nat) returns (ok: bool)
      requires Valid()
      modifies this`cursor, slots
      ensures Valid() && (Now(), ok) == Act(sizes, old(Now()), Action.LeftClick(i))
    {
      if i >= slots.Length {
        return false;
      }
      ActKeepsItems(sizes, Now(), Action.LeftClick(i), Other(0));
      if slots[i].Filled? && cursor.Filled? && Mergable(sizes, cursor, slots[i]) {
        var slot, rest, moved := Merge(sizes, slots[i], cursor);
        slots[i], cursor := slot, rest;
      } else {
        slots[i], cursor := cursor, slots[i];
      }
      return true;
    }

    method RightClick(i: nat) returns (ok: bool)
      requires Valid()
      modifies this`cursor, slots
      ensures Valid() && (Now(), ok) == Act(sizes, old(Now()), Action.RightClick(i))
    {
      if i >= slots.Length {
        return false;
      }
      ActKeepsItems(sizes, Now(), Action.RightClick(i), Other(0));
      ghost var before := Now();
      match (slots[i].Filled?, cursor.Filled?) {
        case (true, true) =>
          if Mergable(sizes, slots[i], cursor) {
            cursor, slots[i] := TransferTo(sizes, cursor, 1, slots[i]);
          } else {
            slots[i], cursor := cursor, slots[i];
          }
        case (true, false) =>
          slots[i], cursor := TakeHalf(sizes, slots[i]);
        case (false, true) =>
          cursor, slots[i] := TryTake(sizes, cursor, 1);
        case (false, false) =>
      }
      assert slots[..] == before.slots[i := slots[i]];
      return true;
    }

    /** Offers the items of slot `i` to the first of the slots `ts`, if it is one that the pass looks
      * for. The ghost parameter is what the slots other than `i` hold.
      */
    method OfferTo(existing: bool, ghost ts: seq<nat>, t: nat, i: nat, ghost others: seq<Slot>)
      returns (ghost others': seq<Slot>)
      requires AllSound(sizes, others) && |others| == slots.Length && i < slots.Length
      requires slots[..] == others[i := slots[i]] && Sound(sizes, slots[i])
      requires Within(ts, slots.Length) && |ts| > 0 && ts[0] == t != i
      modifies slots
      ensures |others'| == slots.Length && AllSound(sizes, others') && Sound(sizes, slots[i])
      ensures slots[..] == others'[i := slots[i]]
      ensures Pass(sizes, existing, others, old(slots[i]), ts) == Pass(sizes, existing, others', slots[i], ts[1..])
    {
      others' := others;
      assert slots[t] == slots[..][t] == others[t];
      PassStep(sizes, existing, others, slots[i], ts);
      if slots[t].Filled? == existing && (existing ==> Mergable(sizes, slots[i], slots[t])) {
        var slot, rest, moved := Merge(sizes, slots[t], slots[i]);
        slots[t], slots[i] := slot, rest;
        others' := others[t := slot];
      }
    }

    /** Offers the items of slot `i` to the slots of an area, either to those that are filled or to
      * those that are empty.
      */
    method Offer(existing: bool, area: Area, i: nat, ghost others: seq<Slot>) returns (ghost others': seq<Slot>)
      requires slots.Length == PLAYER_SLOTS && i < slots.Length && AreaOf(i) != area
      requires AllSound(sizes, others) && |others| == slots.Length
      requires slots[..] == others[i := slots[i]] && Sound(sizes, slots[i])
      requires Within(Numbers(area), slots.Length)
      modifies slots
      ensures (others', slots[i]) == Pass(sizes, existing, others, old(slots[i]), Numbers(area))
      ensures slots[..] == others'[i := slots[i]]
    {
      others' := others;
      NumbersAreInArea(area);
      for k := 0 to PlayerSize(area)
        invariant |others'| == slots.Length && AllSound(sizes, others') && Sound(sizes, slots[i])
        invariant slots[..] == others'[i := slots[i]]
        invariant Pass(sizes, existing, others', slots[i], Numbers(area)[k..])
               == Pass(sizes, existing, others, old(slots[i]), Numbers(area))
      {
        others' := OfferTo(existing, Numbers(area)[k..], PlayerOffset(area) + k, i, others');
        assert Numbers(area)[k..][1..] == Numbers(area)[k + 1..];
      }
    }

    /** Offers the items of slot `i` to one of the areas, unless they come from it or it does not
      * take them.
      */
    method TryArea(existing: bool, areas: seq<Area>, a: nat, i: nat, ghost item: Slot, ghost others: seq<Slot>)
      returns (ghost others': seq<Slot>)
      requires slots.Length == PLAYER_SLOTS && i < slots.Length && a < |areas|
      requires AllSound(sizes, others) && |others| == slots.Length
      requires slots[..] == others[i := slots[i]] && Sound(sizes, slots[i])
      requires slots[i].Filled? && item.Filled? && slots[i].item == item.item
      modifies slots
      ensures |others'| == slots.Length && AllSound(sizes, others') && Sound(sizes, slots[i])
      ensures slots[..] == others'[i := slots[i]]
      ensures slots[i].Filled? ==> slots[i].item == item.item
      ensures Pass(sizes, existing, others', slots[i], Targets(areas[a + 1..], AreaOf(i), item))
           == Pass(sizes, existing, others, old(slots[i]), Targets(areas[a..], AreaOf(i), item))
    {
      ghost var rest := Targets(areas[a + 1..], AreaOf(i), item);
      assert areas[a..][0] == areas[a] && areas[a..][1..] == areas[a + 1..];
      SameKindIsAccepted(areas[a], slots[i], item);
      if areas[a] == AreaOf(i) || !WillAccept(areas[a], slots[i]) {
        return others;
      }
      NumbersAreInArea(areas[a]);
      PassInParts(sizes, existing, others, slots[i], Numbers(areas[a]), rest);
      PassOnlyAdds(sizes, existing, others, slots[i], Numbers(areas[a]), i);
      others' := Offer(existing, areas[a], i, others);
    }

    /** Shift-clicks a slot of a player's window. */
    method ShiftClick(i: nat) returns (ok: bool)
      requires Valid() && slots.Length == PLAYER_SLOTS
      modifies slots
      ensures Valid() && (Now(), ok) == Act(sizes, old(Now()), Action.ShiftClick(i))
    {
      if i >= slots.Length {
        return false;
      }
      if slots[i].Empty? {
        return true;
      }
      ghost var before, item, from := slots[..], slots[i], AreaOf(i);
      ghost var others := slots[..];
      ghost var ts := Targets(AREAS_TO_TRY, from, item);
      ghost var goal := Pass(sizes, true, before, item, ts);
      for a := 0 to |AREAS_TO_TRY|
        invariant |others| == slots.Length && AllSound(sizes, others) && Sound(sizes, slots[i])
        invariant slots[..] == others[i := slots[i]]
        invariant slots[i].Filled? && slots[i].item == item.item
        invariant Pass(sizes, true, others, slots[i], Targets(AREAS_TO_TRY[a..], from, item)) == goal
      {
        others := TryArea(true, AREAS_TO_TRY, a, i, item, others);
        if slots[i].Empty? {
          PassOfNothing(sizes, true, others, Targets(AREAS_TO_TRY[a + 1..], from, item));
          PassOfNothing(sizes, false, others, ts);
          return true;
        }
      }
      goal := Pass(sizes, false, others, slots[i], ts);
      for a := 0 to |AREAS_TO_TRY|
        invariant |others| == slots.Length && AllSound(sizes, others) && Sound(sizes, slots[i])
        invariant slots[..] == others[i := slots[i]]
        invariant slots[i].Filled? && slots[i].item == item.item
        invariant Pass(sizes, false, others, slots[i], Targets(AREAS_TO_TRY[a..], from, item)) == goal
      {
        others := TryArea(false, AREAS_TO_TRY, a, i, item, others);
        if slots[i].Empty? {
          PassOfNothing(sizes, false, others, Targets(AREAS_TO_TRY[a + 1..], from, item));
          break;
        }
      }
      return true;
    }

    method BeginLeftMousePaint()
      requires Valid()
      modifies this`paint
      ensures Valid() && Now() == Act(sizes, old(Now()), BeginLeftPaint).0
    {
      paint := Some(Paint(LeftButton, []));
    }

    method BeginRightMousePaint()
      requires Valid()
      modifies this`paint
      ensures Valid() && Now() == Act(sizes, old(Now()), BeginRightPaint).0
    {
      paint := Some(Paint(RightButton, []));
    }

    /** Adds a slot number to the drag, whatever it is; one too many is added all the same, and
      * reported.
      */
    method AddPaintSlot(i: nat) returns (ok: bool)
      requires Valid()
      modifies this`paint
      ensures Valid() && (Now(), ok) == Act(sizes, old(Now()), Action.AddPaintSlot(i))
    {
      if paint.None? {
        return false;
      }
      paint := Some(paint.value.(slots := paint.value.slots + [i]));
      return |paint.value.slots| <= MAX_PAINT_SLOTS;
    }

    /** Finishes the drag. Its slots are unwrapped. */
    method EndPaint() returns (ok: bool)
      requires Valid() && Allowed(sizes, Now(), Action.EndPaint)
      modifies this, slots
      ensures Valid() && (Now(), ok) == Act(sizes, old(Now()), Action.EndPaint)
    {
      if paint.None? {
        return false;
      }
      var drag := paint.value;
      FinishesIff(sizes, slots[..], cursor, drag);
      paint := None;
      match drag.mouse {
        case LeftButton => HandleLeftDrag(drag);
        case RightButton => MoveItemsIntoSlots(drag, 1);
      }
      return true;
    }

    method HandleLeftDrag(drag: Paint)
      requires Valid() && drag.mouse.LeftButton? && Finished(sizes, slots[..], cursor, drag).Some?
      modifies this`cursor, slots
      ensures Valid() && Some((slots[..], cursor)) == Finished(sizes, old(slots[..]), old(cursor), drag)
    {
      if cursor.Empty? {
        return;
      }
      var takers := 0;
      assert drag.slots[..|drag.slots|] == drag.slots;
      for k := 0 to |drag.slots|
        invariant takers == Takers(sizes, slots[..], cursor, drag.slots[..k])
      {
        assert drag.slots[..k + 1][..k] == drag.slots[..k];
        if Mergable(sizes, slots[drag.slots[k]], cursor) {
          takers := takers + 1;
        }
      }
      if takers == 0 {
        return;
      }
      MoveItemsIntoSlots(drag, if cursor.count / takers > 1 then cursor.count / takers else 1);
    }

    /** Gives up to `per` items to each of the slots, until there are none left. */
    method MoveItemsIntoSlots(drag: Paint, per: nat)
      requires Valid() && GivenOut(sizes, slots[..], cursor, drag.slots, per).Some?
      modifies this`cursor, slots
      ensures Valid() && Some((slots[..], cursor)) == GivenOut(sizes, old(slots[..]), old(cursor), drag.slots, per)
    {
      for k := 0 to |drag.slots|
        invariant AllSound(sizes, slots[..]) && Sound(sizes, cursor)
        invariant GivenOut(sizes, slots[..], cursor, drag.slots[k..], per)
               == GivenOut(sizes, old(slots[..]), old(cursor), drag.slots, per)
      {
        var t := drag.slots[k];
        assert drag.slots[k..][0] == t && drag.slots[k..][1..] == drag.slots[k + 1..];
        if Mergable(sizes, slots[t], cursor) {
          ghost var before, m := slots[..], Moved(sizes, cursor, per, slots[t]);
          assert m == 0 ==> before[t := before[t]] == before;
          cursor, slots[t] := TransferTo(sizes, cursor, per, slots[t]);
          if cursor.Empty? {
            break;
          }
        }
      }
    }
  }
}
