/** What every sequence of a player's actions keeps, and what the single actions achieve. */
module WindowLaws {
  import opened Options
  import opened Slots
  import opened Layout
  import opened WindowModel

  lemma PlaceAt(table: seq<Region>, row: nat, i: nat)
    requires row < |table| && Offset(table, row) <= i < Offset(table, row) + table[row].size
    ensures IndexToSlot(table, i) == Some(Place(table[row].inventory, table[row].area, i - Offset(table, row)))
  {
    FindsRow(table, 0, row, i - Offset(table, row));
  }

  /** The areas of the player's slots are those of the player's layout table. */
  lemma AreaOfIsLayout(i: nat)
    requires i < PLAYER_SLOTS
    ensures IndexToSlot(PLAYER, i) == Some(Place(0, AreaOf(i), i - PlayerOffset(AreaOf(i))))
  {
    var row := if i < 1 then 0 else if i < 5 then 1 else if i < 9 then i - 3
               else if i < 36 then 6 else if i < 45 then 7 else 8;
    PlayerLayout(row);
    PlaceAt(PLAYER, row, i);
  }

  // ----- conservation -----

  /** How many of one kind of item are in the first `n` slots together. */
  function TotalOf(slots: seq<Slot>, n: nat, kind: Item): nat
    requires n <= |slots|
  {
    if n == 0 then 0 else TotalOf(slots, n - 1, kind) + slots[n - 1].Of(kind)
  }

  function Total(slots: seq<Slot>, kind: Item): nat { TotalOf(slots, |slots|, kind) }

  lemma {:induction false} TotalOfUpdated(slots: seq<Slot>, n: nat, i: nat, s: Slot, kind: Item)
    requires i < |slots| && n <= |slots|
    ensures TotalOf(slots[i := s], n, kind)
         == TotalOf(slots, n, kind) + if i < n then s.Of(kind) - slots[i].Of(kind) else 0
  {
    if n > 0 { TotalOfUpdated(slots, n - 1, i, s, kind); }
  }

  lemma TotalAfterUpdate(slots: seq<Slot>, i: nat, s: Slot, kind: Item)
    requires i < |slots|
    ensures Total(slots[i := s], kind) == Total(slots, kind) - slots[i].Of(kind) + s.Of(kind)
  {
    TotalOfUpdated(slots, |slots|, i, s, kind);
  }

  lemma LeftClickKeepsItems(sizes: Sizes, slot: Slot, cursor: Slot, kind: Item)
    requires Sound(sizes, slot) && Sound(sizes, cursor)
    ensures var (s, c) := LeftClicked(sizes, slot, cursor);
      Sound(sizes, s) && Sound(sizes, c) && s.Of(kind) + c.Of(kind) == slot.Of(kind) + cursor.Of(kind)
  {
    if slot.Filled? && cursor.Filled? { MergeIsMaximal(sizes, slot, cursor); }
  }

  /** Moving items from one slot to another neither makes nor loses any. */
  lemma MoveKeepsItems(sizes: Sizes, from: Slot, n: nat, to: Slot, kind: Item)
    requires Sound(sizes, from) && Sound(sizes, to)
    ensures var m := Moved(sizes, from, n, to);
      && Sound(sizes, With(from, m, to)) && Sound(sizes, Less(from, m))
      && With(from, m, to).Of(kind) + (if m == 0 then from else Less(from, m)).Of(kind) == to.Of(kind) + from.Of(kind)
  {
    if from.Filled? && to.Filled? && from.item == to.item {
    } else {
    }
  }

  lemma PartKeepsItems(sizes: Sizes, s: Slot, n: nat, kind: Item)
    requires Sound(sizes, s) && n > 0
    ensures Sound(sizes, Part(s, n)) && Sound(sizes, Less(s, n))
    ensures Part(s, n).Of(kind) + Less(s, n).Of(kind) == s.Of(kind)
  {
  }

  lemma RightClickKeepsItems(sizes: Sizes, slot: Slot, cursor: Slot, kind: Item)
    requires Sound(sizes, slot) && Sound(sizes, cursor)
    ensures Sound(sizes, RightClicked(sizes, slot, cursor).0) && Sound(sizes, RightClicked(sizes, slot, cursor).1)
    ensures RightClicked(sizes, slot, cursor).0.Of(kind) + RightClicked(sizes, slot, cursor).1.Of(kind)
         == slot.Of(kind) + cursor.Of(kind)
  {
    if slot.Filled? {
      if cursor.Filled? {
        MoveKeepsItems(sizes, cursor, 1, slot, kind);
      } else {
        PartKeepsItems(sizes, slot, (slot.count + 1) / 2, kind);
      }
    } else if cursor.Filled? {
      PartKeepsItems(sizes, cursor, 1, kind);
    }
  }

  /** A left click fills up a stack of the same kind from the cursor; anything else is swapped. */
  lemma LeftClickFillsOrSwaps(sizes: Sizes, slot: Slot, cursor: Slot)
    requires Sound(sizes, slot) && Sound(sizes, cursor)
    ensures var (s, c) := LeftClicked(sizes, slot, cursor);
      if slot.Filled? && cursor.Filled? && slot.item == cursor.item && sizes(slot.item) > 1
      then && s == Filled(slot.item, Min(slot.count + cursor.count, sizes(slot.item)))
           && c.Count() == slot.count + cursor.count - s.count && (c.Filled? ==> c.item == cursor.item)
      else s == cursor && c == slot
  {
  }

  /** A right click drops one item where there is room for it, picks up half, the larger one, with
    * an empty cursor, and otherwise swaps.
    */
  lemma RightClickDropsOneOrTakesHalf(sizes: Sizes, slot: Slot, cursor: Slot)
    requires Sound(sizes, slot) && Sound(sizes, cursor)
    ensures var (s, c) := RightClicked(sizes, slot, cursor);
      && (slot.Empty? && cursor.Empty? ==> s.Empty? && c.Empty?)
      && (slot.Filled? && cursor.Empty? ==>
            c == Filled(slot.item, slot.count - slot.count / 2) && s.Count() == slot.count / 2 && (s.Filled? ==>
                   s.item == slot.item))
      && (slot.Filled? && cursor.Filled? && !(slot.item == cursor.item && sizes(slot.item) > 1) ==>
             s == cursor && c == slot)
      && (slot.Filled? && cursor.Filled? && slot.item == cursor.item && 1 < sizes(slot.item) == slot.count ==>
             s == slot && c == cursor)
      && (cursor.Filled? && (slot.Filled? ==> slot.item == cursor.item && sizes(slot.item) > slot.count) ==>
            s == Filled(cursor.item, slot.Count() + 1) && c.Count() == cursor.count - 1 && (c.Filled? ==>
                   c.item == cursor.item))
  {
  }

  /** A pass moves items between its source and the slots, and takes none from any slot. */
  lemma {:induction false} PassKeepsItems(sizes: Sizes, existing: bool, slots: seq<Slot>, src: Slot, ts: seq<nat>,
                                          kind: Item)
    requires AllSound(sizes, slots) && Sound(sizes, src) && Within(ts, |slots|)
    ensures var (r, rest) := Pass(sizes, existing, slots, src, ts);
      Total(r, kind) + rest.Of(kind) == Total(slots, kind) + src.Of(kind)
    decreases |ts|
  {
    if ts != [] {
      var t := ts[0];
      if src.Filled? && Fits(sizes, existing, slots[t], src) {
        MergeIsMaximal(sizes, slots[t], src);
        var (slot, rest) := Merged(sizes, slots[t], src);
        TotalAfterUpdate(slots, t, slot, kind);
        PassKeepsItems(sizes, existing, slots[t := slot], rest, ts[1..], kind);
      } else {
        PassKeepsItems(sizes, existing, slots, src, ts[1..], kind);
      }
    }
  }

  /** A pass changes nothing but its targets; a filled slot keeps its item and loses none. */
  lemma {:induction false} PassOnlyAdds(sizes: Sizes, existing: bool, slots: seq<Slot>, src: Slot, ts: seq<nat>, i: nat)
    requires AllSound(sizes, slots) && Sound(sizes, src) && Within(ts, |slots|) && i < |slots|
    ensures var (r, rest) := Pass(sizes, existing, slots, src, ts);
      && (i !in ts ==> r[i] == slots[i])
      && (slots[i].Filled? ==> r[i].Filled? && r[i].item == slots[i].item && r[i].count >= slots[i].count)
      && (slots[i].Empty? && existing ==> r[i].Empty?)
      && (rest.Filled? ==> src.Filled? && rest.item == src.item)
      && (src.Empty? ==> rest == src && r[i] == slots[i])
    decreases |ts|
  {
    if ts != [] {
      var t := ts[0];
      if src.Filled? && Fits(sizes, existing, slots[t], src) {
        MergeIsMaximal(sizes, slots[t], src);
        var (slot, rest) := Merged(sizes, slots[t], src);
        PassOnlyAdds(sizes, existing, slots[t := slot], rest, ts[1..], i);
      } else {
        PassOnlyAdds(sizes, existing, slots, src, ts[1..], i);
      }
    }
  }

  /** If a pass has something left over, every slot that it looks for has been used up. */
  lemma {:induction false} PassIsMaximal(sizes: Sizes, existing: bool, slots: seq<Slot>, src: Slot, ts: seq<nat>,
                                         k: nat)
    requires AllSound(sizes, slots) && Sound(sizes, src) && Within(ts, |slots|) && k < |ts|
    requires src.Filled?
    ensures var (r, rest) := Pass(sizes, existing, slots, src, ts);
      rest.Filled? && Fits(sizes, existing, slots[ts[k]], src) ==>
        existing && r[ts[k]].Filled? && r[ts[k]].count == sizes(src.item)
    decreases |ts|
  {
    var t := ts[0];
    if Fits(sizes, existing, slots[t], src) {
      MergeIsMaximal(sizes, slots[t], src);
      var (slot, rest) := Merged(sizes, slots[t], src);
      PassOnlyAdds(sizes, existing, slots[t := slot], rest, ts[1..], t);
      PassOnlyAdds(sizes, existing, slots[t := slot], rest, ts[1..], ts[k]);
      if k > 0 && ts[k] != t && rest.Filled? {
        PassIsMaximal(sizes, existing, slots[t := slot], rest, ts[1..], k - 1);
      }
    } else if k > 0 {
      PassIsMaximal(sizes, existing, slots, src, ts[1..], k - 1);
    }
  }

  lemma ShiftClickKeepsItems(sizes: Sizes, slots: seq<Slot>, i: nat, kind: Item)
    requires AllSound(sizes, slots) && |slots| == PLAYER_SLOTS && i < |slots|
    ensures Total(ShiftClicked(sizes, slots, i), kind) == Total(slots, kind)
  {
    if slots[i].Filled? {
      var ts := Targets(AREAS_TO_TRY, AreaOf(i), slots[i]);
      assert i !in ts;
      var (slots1, src1) := Pass(sizes, true, slots, slots[i], ts);
      var (slots2, src2) := Pass(sizes, false, slots1, src1, ts);
      PassKeepsItems(sizes, true, slots, slots[i], ts, kind);
      PassKeepsItems(sizes, false, slots1, src1, ts, kind);
      PassOnlyAdds(sizes, true, slots, slots[i], ts, i);
      PassOnlyAdds(sizes, false, slots1, src1, ts, i);
      TotalAfterUpdate(slots2, i, src2, kind);
    }
  }

  lemma {:induction false} SpreadKeepsItems(sizes: Sizes, slots: seq<Slot>, cursor: Slot, ts: seq<nat>, per: nat,
                                            kind: Item)
    requires AllSound(sizes, slots) && Sound(sizes, cursor) && Within(ts, |slots|)
    ensures var (r, c) := Spread(sizes, slots, cursor, ts, per);
      Total(r, kind) + c.Of(kind) == Total(slots, kind) + cursor.Of(kind)
    decreases |ts|
  {
    if ts != [] {
      var t, m := ts[0], Moved(sizes, cursor, per, slots[ts[0]]);
      if m == 0 {
        SpreadKeepsItems(sizes, slots, cursor, ts[1..], per, kind);
      } else {
        MoveKeepsItems(sizes, cursor, per, slots[t], kind);
        TotalAfterUpdate(slots, t, With(cursor, m, slots[t]), kind);
        SpreadKeepsItems(sizes, slots[t := With(cursor, m, slots[t])], Less(cursor, m), ts[1..], per, kind);
      }
    }
  }

  /** Every action keeps the stacks sound and the number of items of every kind. */
  lemma ActKeepsItems(sizes: Sizes, w: State, a: Action, kind: Item)
    requires Valid(sizes, w) && Allowed(sizes, w, a)
    ensures var w' := Act(sizes, w, a).0;
      && Valid(sizes, w') && |w'.slots| == |w.slots|
      && Total(w'.slots, kind) + w'.cursor.Of(kind) == Total(w.slots, kind) + w.cursor.Of(kind)
  {
    match a
    case LeftClick(i) =>
      if i < |w.slots| {
        LeftClickKeepsItems(sizes, w.slots[i], w.cursor, kind);
        TotalAfterUpdate(w.slots, i, LeftClicked(sizes, w.slots[i], w.cursor).0, kind);
      }
    case RightClick(i) =>
      if i < |w.slots| {
        RightClickKeepsItems(sizes, w.slots[i], w.cursor, kind);
        TotalAfterUpdate(w.slots, i, RightClicked(sizes, w.slots[i], w.cursor).0, kind);
      }
    case ShiftClick(i) => if i < |w.slots| { ShiftClickKeepsItems(sizes, w.slots, i, kind); }
    case BeginLeftPaint =>
    case BeginRightPaint =>
    case AddPaintSlot(i) =>
    case EndPaint =>
      if w.paint.Some? {
        var p := w.paint.value;
        var ts := p.slots[..Existing(p.slots, |w.slots|)];
        if p.mouse.RightButton? {
          SpreadKeepsItems(sizes, w.slots, w.cursor, ts, 1, kind);
        } else if w.cursor.Filled? && Takers(sizes, w.slots, w.cursor, ts) > 0 {
          SpreadKeepsItems(sizes, w.slots, w.cursor, ts,
                           Share(w.cursor.count, Takers(sizes, w.slots, w.cursor, ts)), kind);
        }
      }
  }

  /** What the original asks of its caller throughout a sequence of actions. */
  ghost predicate AllAllowed(sizes: Sizes, w: State, actions: seq<Action>)
    requires Valid(sizes, w)
    decreases |actions|
  {
    if actions == [] then true
    else if !Allowed(sizes, w, actions[0]) then false
    else
      ActKeepsItems(sizes, w, actions[0], Other(0));
      AllAllowed(sizes, Act(sizes, w, actions[0]).0, actions[1..])
  }

  /** Main result on windows: over any sequence of actions the number of items of every kind in the
    * slots and the cursor together stays what it was, and every stack stays between 1 and its
    * item's limit, so that none of the original's unwraps fails.
    */
  lemma {:induction false} EverySequenceKeepsItems(sizes: Sizes, w: State, actions: seq<Action>, kind: Item)
    returns (last: State)
    requires Valid(sizes, w) && AllAllowed(sizes, w, actions)
    ensures Reached(sizes, w, actions, last)
    ensures Valid(sizes, last) && |last.slots| == |w.slots|
    ensures Total(last.slots, kind) + last.cursor.Of(kind) == Total(w.slots, kind) + w.cursor.Of(kind)
    decreases |actions|
  {
    if actions == [] {
      last := w;
    } else {
      ActKeepsItems(sizes, w, actions[0], kind);
      last := EverySequenceKeepsItems(sizes, Act(sizes, w, actions[0]).0, actions[1..], kind);
    }
  }

  /** `last` is the state after the actions, each of which could be carried out. */
  ghost predicate Reached(sizes: Sizes, w: State, actions: seq<Action>, last: State)
    decreases |actions|
  {
    if actions == [] then last == w
    else
      && Valid(sizes, w) && Allowed(sizes, w, actions[0])
      && Reached(sizes, Act(sizes, w, actions[0]).0, actions[1..], last)
  }

  /** What is an error: a click on a number that is no slot's, and a drag that has not begun. Nothing is
    * changed then.
    */
  lemma ErrorsChangeNothing(sizes: Sizes, w: State, a: Action)
    requires Valid(sizes, w) && Allowed(sizes, w, a)
    ensures a.LeftClick? || a.RightClick? || a.ShiftClick? ==> (Act(sizes, w, a).1 <==> a.slot < |w.slots|)
    ensures a.EndPaint? ==> (Act(sizes, w, a).1 <==> w.paint.Some?)
    ensures a.AddPaintSlot? && w.paint.None? ==> !Act(sizes, w, a).1
    ensures !Act(sizes, w, a).1 && (a.AddPaintSlot? ==> w.paint.None?) ==> Act(sizes, w, a).0 == w
    ensures a.EndPaint? || a.BeginLeftPaint? || a.BeginRightPaint? ==>
      Act(sizes, w, a).0.paint == match a
        case EndPaint => None
        case BeginLeftPaint => Some(Paint(LeftButton, []))
        case _ => Some(Paint(RightButton, []))
  {
  }

  /** A drag takes any slot number; from the 1001st on this is reported. */
  lemma PaintSlotsAreAdded(sizes: Sizes, w: State, p: Paint, i: nat)
    requires Valid(sizes, w) && w.paint == Some(p)
    ensures Act(sizes, w, Action.AddPaintSlot(i))
         == (w.(paint := Some(Paint(p.mouse, p.slots + [i]))), |p.slots| < 1000)
  {
  }

  // ----- shift-clicks move as much as possible -----

  /** Where a shift-click in slot `i` may move items of a kind, by the numbers of the slots: armour to
    * the slot where it is worn, among which leather helmets count as leggings and leather leggings
    * do not, and everything to the hotbar and to the storage, if it is not there already.
    */
  predicate GoesTo(kind: Item, i: nat, t: nat) {
    || (36 <= t < 45 && !(36 <= i < 45))
    || (9 <= t < 36 && !(9 <= i < 36))
    || (i != t == 5 && kind in {LeatherHelmet, ChainmailHelmet, GoldenHelmet, IronHelmet, DiamondHelmet,
                                NetheriteHelmet})
    || (i != t == 6 && kind in {LeatherChestplate, ChainmailChestplate, GoldenChestplate, IronChestplate,
                                DiamondChestplate, NetheriteChestplate})
    || (i != t == 7 && kind in {LeatherHelmet, ChainmailLeggings, GoldenLeggings, IronLeggings, DiamondLeggings,
                                NetheriteLeggings})
    || (i != t == 8 && kind in {LeatherBoots, ChainmailBoots, GoldenBoots, IronBoots, DiamondBoots, NetheriteBoots})
  }

  /** The order in which the slots are tried: those of the armour, the hotbar, the storage. */
  function Turn(t: nat): nat { if 9 <= t < 36 then t + 100 else t }

  /** The targets are all the slots of the areas tried. */
  lemma {:induction false} TargetsAreComplete(areas: seq<Area>, from: Area, s: Slot, t: nat)
    requires t < PLAYER_SLOTS
    ensures t in Targets(areas, from, s) <==> AreaOf(t) in areas && Tried(AreaOf(t), from, s)
  {
    if areas != [] {
      TargetsAreComplete(areas[1..], from, s, t);
      NumbersAreInArea(areas[0]);
      if AreaOf(t) == areas[0] {
        assert Numbers(areas[0])[t - PlayerOffset(areas[0])] == t;
      }
    }
  }

  lemma AreasByNumber(t: nat)
    requires t < PLAYER_SLOTS
    ensures AreaOf(t) in AREAS_TO_TRY <==> 1 <= t < 45
  {
    assert AREAS_TO_TRY[0] == Helmet && AREAS_TO_TRY[1] == Chestplate && AREAS_TO_TRY[2] == Leggings;
    assert AREAS_TO_TRY[3] == Boots && AREAS_TO_TRY[4] == CraftingInput;
    assert AREAS_TO_TRY[5] == Hotbar && AREAS_TO_TRY[6] == Storage;
  }

  lemma TriedByNumber(i: nat, s: Slot, t: nat)
    requires i < PLAYER_SLOTS && t < PLAYER_SLOTS && s.Filled?
    ensures 1 <= t < 45 && Tried(AreaOf(t), AreaOf(i), s) <==> GoesTo(s.item, i, t)
  {
  }

  /** So the slots tried are those by the numbers. */
  lemma TargetsByNumber(i: nat, s: Slot, t: nat)
    requires i < PLAYER_SLOTS && s.Filled?
    ensures t in Targets(AREAS_TO_TRY, AreaOf(i), s) <==> GoesTo(s.item, i, t)
  {
    if t < PLAYER_SLOTS {
      TargetsAreComplete(AREAS_TO_TRY, AreaOf(i), s, t);
      AreasByNumber(t);
      TriedByNumber(i, s, t);
    }
  }

  /** A shift-click takes items from the slot that is clicked only, and changes no other slots than
    * those tried, which keep what they have.
    */
  lemma ShiftClickOnlyAdds(sizes: Sizes, slots: seq<Slot>, i: nat, t: nat)
    requires AllSound(sizes, slots) && |slots| == PLAYER_SLOTS && i < |slots| && t < |slots| && t != i
    ensures var r := ShiftClicked(sizes, slots, i);
      && (slots[i].Empty? || !GoesTo(slots[i].item, i, t) ==> r[t] == slots[t])
      && (slots[t].Filled? ==> r[t].Filled? && r[t].item == slots[t].item && r[t].count >= slots[t].count)
  {
    if slots[i].Filled? {
      var ts := Targets(AREAS_TO_TRY, AreaOf(i), slots[i]);
      var (slots1, src1) := Pass(sizes, true, slots, slots[i], ts);
      TargetsByNumber(i, slots[i], t);
      PassOnlyAdds(sizes, true, slots, slots[i], ts, t);
      PassOnlyAdds(sizes, false, slots1, src1, ts, t);
    }
  }

  /** A shift-click that leaves something in the clicked slot has left no room for it: of the slots
    * tried, none is empty and those that could be merged with are full.
    */
  lemma ShiftClickIsMaximal(sizes: Sizes, slots: seq<Slot>, i: nat, t: nat)
    requires AllSound(sizes, slots) && |slots| == PLAYER_SLOTS && i < |slots| && slots[i].Filled?
    requires t < |slots| && GoesTo(slots[i].item, i, t)
    ensures var r := ShiftClicked(sizes, slots, i);
      r[i].Filled? ==>
        && r[i].item == slots[i].item
        && r[t].Filled? && (Mergable(sizes, slots[i], r[t]) ==> r[t].count == sizes(slots[i].item))
  {
    var ts := Targets(AREAS_TO_TRY, AreaOf(i), slots[i]);
    TargetsByNumber(i, slots[i], t);
    assert i !in ts;
    var k :| 0 <= k < |ts| && ts[k] == t;
    var (slots1, src1) := Pass(sizes, true, slots, slots[i], ts);
    PassOnlyAdds(sizes, true, slots, slots[i], ts, t);
    PassOnlyAdds(sizes, false, slots1, src1, ts, t);
    PassIsMaximal(sizes, true, slots, slots[i], ts, k);
    if src1.Filled? { PassIsMaximal(sizes, false, slots1, src1, ts, k); }
  }

  /** Stacks that are there are filled before an empty slot is used: if a shift-click has put items
    * into an empty slot, then it has moved everything, and every slot tried that could be merged
    * with is full.
    */
  lemma ExistingStacksFirst(sizes: Sizes, slots: seq<Slot>, i: nat, empty: nat, t: nat)
    requires AllSound(sizes, slots) && |slots| == PLAYER_SLOTS && i < |slots| && slots[i].Filled?
    requires empty < |slots| && slots[empty].Empty? && ShiftClicked(sizes, slots, i)[empty].Filled?
    requires t < |slots| && GoesTo(slots[i].item, i, t)
    ensures var r := ShiftClicked(sizes, slots, i);
      && r[i].Empty?
      && (slots[t].Filled? && Mergable(sizes, slots[i], slots[t]) ==>
             r[t].Filled? && r[t].count == sizes(slots[i].item))
  {
    var ts := Targets(AREAS_TO_TRY, AreaOf(i), slots[i]);
    TargetsByNumber(i, slots[i], t);
    assert i !in ts;
    var k :| 0 <= k < |ts| && ts[k] == t;
    var (slots1, src1) := Pass(sizes, true, slots, slots[i], ts);
    PassOnlyAdds(sizes, true, slots, slots[i], ts, empty);
    PassOnlyAdds(sizes, true, slots, slots[i], ts, t);
    PassOnlyAdds(sizes, false, slots1, src1, ts, empty);
    PassOnlyAdds(sizes, false, slots1, src1, ts, t);
    PassIsMaximal(sizes, true, slots, slots[i], ts, k);
    FirstEmptyIsEnough(sizes, slots1, src1, ts, empty);
  }

  /** A pass that puts items into an empty slot puts all there are into it. */
  lemma FirstEmptyIsEnough(sizes: Sizes, slots: seq<Slot>, src: Slot, ts: seq<nat>, empty: nat)
    requires AllSound(sizes, slots) && Sound(sizes, src) && Within(ts, |slots|)
    requires empty < |slots| && slots[empty].Empty? && Pass(sizes, false, slots, src, ts).0[empty].Filled?
    ensures Pass(sizes, false, slots, src, ts).1.Empty?
  {
    PassOnlyAdds(sizes, false, slots, src, ts, empty);
    var j :| 0 <= j < |ts| && ts[j] == empty;
    PassIsMaximal(sizes, false, slots, src, ts, j);
  }

  // ----- the order of a shift-click -----

  ghost predicate Ascending(ts: seq<nat>) {
    forall j, k :: 0 <= j < k < |ts| ==> Turn(ts[j]) < Turn(ts[k])
  }

  /** The first turn from the area with this number on. */
  function FirstTurn(n: nat): nat { if n < 4 then 5 + n else if n < 6 then 36 else if n == 6 then 109 else 136 }

  lemma AreaTurns(n: nat, s: Slot)
    requires n < |AREAS_TO_TRY| && WillAccept(AREAS_TO_TRY[n], s)
    ensures Ascending(Numbers(AREAS_TO_TRY[n])) && FirstTurn(n) <= FirstTurn(n + 1)
    ensures forall t :: t in Numbers(AREAS_TO_TRY[n]) ==> FirstTurn(n) <= Turn(t) < FirstTurn(n + 1)
  {
  }

  lemma {:induction false} TargetsAscend(n: nat, from: Area, s: Slot)
    requires n <= |AREAS_TO_TRY|
    ensures var ts := Targets(AREAS_TO_TRY[n..], from, s);
      Ascending(ts) && forall t :: t in ts ==> FirstTurn(n) <= Turn(t)
    decreases |AREAS_TO_TRY| - n
  {
    if n < |AREAS_TO_TRY| {
      var areas := AREAS_TO_TRY[n..];
      assert areas[0] == AREAS_TO_TRY[n] && areas[1..] == AREAS_TO_TRY[n + 1..];
      TargetsAscend(n + 1, from, s);
      if Tried(areas[0], from, s) {
        AreaTurns(n, s);
        BothAscend(Numbers(areas[0]), Targets(areas[1..], from, s), FirstTurn(n + 1));
      } else {
        assert FirstTurn(n) <= FirstTurn(n + 1);
      }
    }
  }

  lemma BothAscend(xs: seq<nat>, ys: seq<nat>, m: nat)
    requires Ascending(xs) && Ascending(ys)
    requires (forall t :: t in xs ==> Turn(t) < m) && (forall t :: t in ys ==> m <= Turn(t))
    ensures Ascending(xs + ys)
  {
    forall j, k | 0 <= j < k < |xs + ys| ensures Turn((xs + ys)[j]) < Turn((xs + ys)[k]) {
      if j < |xs| { assert xs[j] in xs; }
      if k >= |xs| { assert ys[k - |xs|] in ys; }
    }
  }

  /** A pass gives a later slot something only if the earlier ones that it looks for are full. */
  lemma {:induction false} PassInOrder(sizes: Sizes, existing: bool, slots: seq<Slot>, src: Slot, ts: seq<nat>,
                                       j: nat, k: nat)
    requires AllSound(sizes, slots) && Sound(sizes, src) && Within(ts, |slots|) && Ascending(ts) && j < k < |ts|
    requires src.Filled? && Fits(sizes, existing, slots[ts[j]], src)
    ensures var r := Pass(sizes, existing, slots, src, ts).0;
      r[ts[k]] != slots[ts[k]] ==> existing && r[ts[j]].Filled? && r[ts[j]].count == sizes(src.item)
    decreases |ts|
  {
    var t := ts[0];
    assert Turn(ts[j]) < Turn(ts[k]) && (j > 0 ==> Turn(t) < Turn(ts[j])) && Turn(t) < Turn(ts[k]);
    if Fits(sizes, existing, slots[t], src) {
      MergeIsMaximal(sizes, slots[t], src);
      var (slot, rest) := Merged(sizes, slots[t], src);
      PassOnlyAdds(sizes, existing, slots[t := slot], rest, ts[1..], ts[k]);
      PassOnlyAdds(sizes, existing, slots[t := slot], rest, ts[1..], ts[j]);
      if j > 0 && rest.Filled? { PassInOrder(sizes, existing, slots[t := slot], rest, ts[1..], j - 1, k - 1); }
    } else {
      PassInOrder(sizes, existing, slots, src, ts[1..], j - 1, k - 1);
    }
  }

  /** A pass leaves the slots that it does not look for as they are. */
  lemma {:induction false} PassLeaves(sizes: Sizes, existing: bool, slots: seq<Slot>, src: Slot, ts: seq<nat>, i: nat)
    requires AllSound(sizes, slots) && Sound(sizes, src) && Within(ts, |slots|) && Ascending(ts) && i < |slots|
    requires slots[i].Filled? != existing
    ensures Pass(sizes, existing, slots, src, ts).0[i] == slots[i]
    decreases |ts|
  {
    if ts != [] {
      var t := ts[0];
      if src.Filled? && Fits(sizes, existing, slots[t], src) {
        MergeIsMaximal(sizes, slots[t], src);
        var (slot, rest) := Merged(sizes, slots[t], src);
        PassLeaves(sizes, existing, slots[t := slot], rest, ts[1..], i);
      } else {
        PassLeaves(sizes, existing, slots, src, ts[1..], i);
      }
    }
  }

  lemma StacksInOrder(sizes: Sizes, slots: seq<Slot>, s: Slot, ts: seq<nat>, j: nat, k: nat, t: nat, u: nat)
    requires AllSound(sizes, slots) && Sound(sizes, s) && Within(ts, |slots|) && Ascending(ts) && j < k < |ts|
    requires t == ts[j] && u == ts[k] && s.Filled? && Fits(sizes, true, slots[t], s) && slots[u].Filled?
    ensures var (slots1, src1) := Pass(sizes, true, slots, s, ts);
      var r := Pass(sizes, false, slots1, src1, ts).0;
      r[u] != slots[u] ==> r[t].Filled? && r[t].count == sizes(s.item)
  {
    var (slots1, src1) := Pass(sizes, true, slots, s, ts);
    PassInOrder(sizes, true, slots, s, ts, j, k);
    PassOnlyAdds(sizes, true, slots, s, ts, t);
    PassOnlyAdds(sizes, true, slots, s, ts, u);
    PassLeaves(sizes, false, slots1, src1, ts, t);
    PassLeaves(sizes, false, slots1, src1, ts, u);
  }

  lemma EmptiesInOrder(sizes: Sizes, slots: seq<Slot>, s: Slot, ts: seq<nat>, j: nat, k: nat, t: nat, u: nat)
    requires AllSound(sizes, slots) && Sound(sizes, s) && Within(ts, |slots|) && Ascending(ts) && j < k < |ts|
    requires t == ts[j] && u == ts[k] && slots[t].Empty? && slots[u].Empty?
    ensures var (slots1, src1) := Pass(sizes, true, slots, s, ts);
      Pass(sizes, false, slots1, src1, ts).0[u] == slots[u]
  {
    var (slots1, src1) := Pass(sizes, true, slots, s, ts);
    PassLeaves(sizes, true, slots, s, ts, t);
    PassLeaves(sizes, true, slots, s, ts, u);
    if src1.Filled? {
      PassInOrder(sizes, false, slots1, src1, ts, j, k);
    } else {
      PassOnlyAdds(sizes, false, slots1, src1, ts, u);
    }
  }

  /** Of two slots that are tried, both with something in them or both empty, the later one gets items
    * only if the earlier one is full then, or could not be merged with.
    */
  lemma ShiftClickInOrder(sizes: Sizes, slots: seq<Slot>, i: nat, t: nat, u: nat)
    requires AllSound(sizes, slots) && |slots| == PLAYER_SLOTS && i < |slots| && slots[i].Filled?
    requires t < |slots| && u < |slots| && GoesTo(slots[i].item, i, t) && GoesTo(slots[i].item, i, u)
    requires Turn(t) < Turn(u) && slots[t].Filled? == slots[u].Filled? && Mergable(sizes, slots[i], slots[t])
    ensures var r := ShiftClicked(sizes, slots, i);
      r[u] != slots[u] ==> slots[u].Filled? && r[t].Filled? && r[t].count == sizes(slots[i].item)
  {
    var s, ts := slots[i], Targets(AREAS_TO_TRY, AreaOf(i), slots[i]);
    assert AREAS_TO_TRY[0..] == AREAS_TO_TRY;
    TargetsAscend(0, AreaOf(i), s);
    TargetsByNumber(i, s, t);
    TargetsByNumber(i, s, u);
    assert t != i && u != i;
    var j :| 0 <= j < |ts| && ts[j] == t;
    var k :| 0 <= k < |ts| && ts[k] == u;
    assert j < k;
    if slots[t].Filled? {
      StacksInOrder(sizes, slots, s, ts, j, k, t, u);
    } else {
      EmptiesInOrder(sizes, slots, s, ts, j, k, t, u);
    }
  }

  // ----- left drags split evenly -----

  /** What is left of `count` items after `takers` have had their share. */
  function Left(count: nat, per: nat, takers: nat): nat {
    if takers == 0 then count else Left(if count > per then count - per else 0, per, takers - 1)
  }

  /** What the taker with this rank gets. */
  function Gain(count: nat, per: nat, rank: nat): nat { Min(per, Left(count, per, rank)) }

  ghost predicate NoRepeats(ts: seq<nat>) {
    forall j, k :: 0 <= j < k < |ts| ==> ts[j] != ts[k]
  }

  /** Every slot that could take the items has room for a share. */
  ghost predicate RoomFor(sizes: Sizes, slots: seq<Slot>, cursor: Slot, ts: seq<nat>, per: nat)
    requires cursor.Filled? && Within(ts, |slots|)
  {
    forall k :: 0 <= k < |ts| && Mergable(sizes, slots[ts[k]], cursor) ==>
      slots[ts[k]].Count() + per <= sizes(cursor.item)
  }

  /** How many of the first `j` slots could take the items. */
  function Rank(sizes: Sizes, slots: seq<Slot>, cursor: Slot, ts: seq<nat>, j: nat): nat
    requires Within(ts, |slots|) && j <= |ts|
  {
    Takers(sizes, slots, cursor, ts[..j])
  }

  lemma {:induction false} TakersFromFront(sizes: Sizes, slots: seq<Slot>, cursor: Slot, ts: seq<nat>)
    requires Within(ts, |slots|) && |ts| > 0
    ensures Takers(sizes, slots, cursor, ts)
         == Takers(sizes, slots, cursor, ts[1..]) + if Mergable(sizes, slots[ts[0]], cursor) then 1 else 0
  {
    if |ts| > 1 {
      TakersFromFront(sizes, slots, cursor, ts[..|ts| - 1]);
      assert ts[..|ts| - 1][1..] == ts[1..][..|ts| - 2];
    }
  }

  /** Whether slots can take the items depends on the kind of the items only, and on these slots. */
  lemma {:induction false} SameTakers(sizes: Sizes, slots: seq<Slot>, cursor: Slot, slots': seq<Slot>, cursor': Slot,
                                      ts: seq<nat>)
    requires Within(ts, |slots|) && |slots'| == |slots|
    requires cursor.Filled? && cursor'.Filled? && cursor'.item == cursor.item
    requires forall k :: 0 <= k < |ts| ==> slots'[ts[k]] == slots[ts[k]]
    ensures Takers(sizes, slots', cursor', ts) == Takers(sizes, slots, cursor, ts)
  {
    if ts != [] {
      SameTakers(sizes, slots, cursor, slots', cursor', ts[..|ts| - 1]);
    }
  }

  lemma {:induction false} NoneLeftToSpread(sizes: Sizes, slots: seq<Slot>, ts: seq<nat>, per: nat)
    requires AllSound(sizes, slots) && Within(ts, |slots|)
    ensures Spread(sizes, slots, Empty, ts, per) == (slots, Empty)
    decreases |ts|
  {
    if ts != [] { NoneLeftToSpread(sizes, slots, ts[1..], per); }
  }

  lemma {:induction false} SpreadChangesTargetsOnly(sizes: Sizes, slots: seq<Slot>, cursor: Slot, ts: seq<nat>,
                                                    per: nat, i: nat)
    requires AllSound(sizes, slots) && Sound(sizes, cursor) && Within(ts, |slots|) && i < |slots| && i !in ts
    ensures Spread(sizes, slots, cursor, ts, per).0[i] == slots[i]
    decreases |ts|
  {
    if ts != [] {
      var m := Moved(sizes, cursor, per, slots[ts[0]]);
      if m == 0 {
        SpreadChangesTargetsOnly(sizes, slots, cursor, ts[1..], per, i);
      } else {
        var given := slots[ts[0] := With(cursor, m, slots[ts[0]])];
        SpreadChangesTargetsOnly(sizes, given, Less(cursor, m), ts[1..], per, i);
      }
    }
  }

  /** A slot that can take items gets a share, or all that is left. */
  lemma SpreadStep(sizes: Sizes, slots: seq<Slot>, cursor: Slot, ts: seq<nat>, per: nat)
    requires AllSound(sizes, slots) && Sound(sizes, cursor) && Within(ts, |slots|) && NoRepeats(ts)
    requires cursor.Filled? && per > 0 && RoomFor(sizes, slots, cursor, ts, per)
    requires |ts| > 0 && Mergable(sizes, slots[ts[0]], cursor)
    ensures var m := Min(per, cursor.count);
      var slots', cursor' := slots[ts[0] := With(cursor, m, slots[ts[0]])], Less(cursor, m);
      && AllSound(sizes, slots') && Sound(sizes, cursor')
      && Spread(sizes, slots, cursor, ts, per) == Spread(sizes, slots', cursor', ts[1..], per)
      && (cursor'.Filled? ==> RoomFor(sizes, slots', cursor', ts[1..], per))
  {
    MoveKeepsItems(sizes, cursor, per, slots[ts[0]], cursor.item);
  }

  /** What the slot that is painted as number `j` holds after spreading. */
  function Given(sizes: Sizes, slots: seq<Slot>, cursor: Slot, ts: seq<nat>, per: nat, j: nat): Slot
    requires Within(ts, |slots|) && j < |ts| && cursor.Filled?
  {
    if Mergable(sizes, slots[ts[j]], cursor)
    then With(cursor, Gain(cursor.count, per, Rank(sizes, slots, cursor, ts, j)), slots[ts[j]])
    else slots[ts[j]]
  }

  lemma RankFromFront(sizes: Sizes, slots: seq<Slot>, cursor: Slot, ts: seq<nat>, j: nat)
    requires Within(ts, |slots|) && 0 < j < |ts|
    ensures Rank(sizes, slots, cursor, ts, j)
         == Rank(sizes, slots, cursor, ts[1..], j - 1) + if Mergable(sizes, slots[ts[0]], cursor) then 1 else 0
  {
    assert ts[..j][1..] == ts[1..][..j - 1];
    TakersFromFront(sizes, slots, cursor, ts[..j]);
  }

  /** After a share has been given away the others are still to get the same. */
  lemma GivenNext(sizes: Sizes, slots: seq<Slot>, cursor: Slot, ts: seq<nat>, per: nat, j: nat)
    requires Within(ts, |slots|) && NoRepeats(ts) && cursor.Filled? && 0 < j < |ts| && per > 0
    requires Mergable(sizes, slots[ts[0]], cursor)
    ensures var slots' := slots[ts[0] := With(cursor, Min(per, cursor.count), slots[ts[0]])];
      if cursor.count > per
      then Given(sizes, slots', cursor.(count := cursor.count - per), ts[1..], per, j - 1)
             == Given(sizes, slots, cursor, ts, per, j)
      else slots'[ts[j]] == Given(sizes, slots, cursor, ts, per, j)
  {
    RankFromFront(sizes, slots, cursor, ts, j);
    if cursor.count > per {
      var slots' := slots[ts[0] := With(cursor, per, slots[ts[0]])];
      SameTakers(sizes, slots, cursor, slots', cursor.(count := cursor.count - per), ts[1..][..j - 1]);
    } else {
      NothingIsLeft(per, Rank(sizes, slots, cursor, ts, j) - 1);
    }
  }

  /** Spreading gives the slots that can take items their share, one after the other, until none is
    * left.
    */
  lemma {:induction false} SpreadGives(sizes: Sizes, slots: seq<Slot>, cursor: Slot, ts: seq<nat>, per: nat, j: nat)
    requires AllSound(sizes, slots) && Sound(sizes, cursor) && Within(ts, |slots|) && NoRepeats(ts)
    requires cursor.Filled? && per > 0 && RoomFor(sizes, slots, cursor, ts, per)
    requires j < |ts|
    ensures Spread(sizes, slots, cursor, ts, per).0[ts[j]] == Given(sizes, slots, cursor, ts, per, j)
    decreases |ts|
  {
    var t, rest := ts[0], ts[1..];
    assert t !in rest;
    if !Mergable(sizes, slots[t], cursor) {
      if j == 0 {
        SpreadChangesTargetsOnly(sizes, slots, cursor, rest, per, t);
      } else {
        RankFromFront(sizes, slots, cursor, ts, j);
        SpreadGives(sizes, slots, cursor, rest, per, j - 1);
      }
    } else {
      SpreadStep(sizes, slots, cursor, ts, per);
      var m := Min(per, cursor.count);
      var slots', cursor' := slots[t := With(cursor, m, slots[t])], Less(cursor, m);
      if j == 0 {
        SpreadChangesTargetsOnly(sizes, slots', cursor', rest, per, t);
      } else {
        GivenNext(sizes, slots, cursor, ts, per, j);
        if cursor'.Empty? {
          NoneLeftToSpread(sizes, slots', rest, per);
        } else {
          SpreadGives(sizes, slots', cursor', rest, per, j - 1);
        }
      }
    }
  }

  /** The loop that gives items out, with the slots unwrapped: none if one of those is missing. */
  function GivenOut(sizes: Sizes, slots: seq<Slot>, cursor: Slot, ts: seq<nat>, per: nat)
    : (r: Option<(seq<Slot>, Slot)>)
    requires AllSound(sizes, slots) && Sound(sizes, cursor)
    ensures r.Some? ==> |r.value.0| == |slots| && AllSound(sizes, r.value.0) && Sound(sizes, r.value.1)
    decreases |ts|
  {
    if ts == [] then Some((slots, cursor))
    else if ts[0] >= |slots| then None
    else if !Mergable(sizes, slots[ts[0]], cursor) then GivenOut(sizes, slots, cursor, ts[1..], per)
    else
      var m := Moved(sizes, cursor, per, slots[ts[0]]);
      var slots' := if m == 0 then slots else slots[ts[0] := With(cursor, m, slots[ts[0]])];
      var cursor' := if m == 0 then cursor else Less(cursor, m);
      if cursor'.Empty? then Some((slots', cursor')) else GivenOut(sizes, slots', cursor', ts[1..], per)
  }

  lemma {:induction false} GivenOutIff(sizes: Sizes, slots: seq<Slot>, cursor: Slot, ts: seq<nat>, per: nat)
    requires AllSound(sizes, slots) && Sound(sizes, cursor)
    ensures var k := Existing(ts, |slots|);
      var r := Spread(sizes, slots, cursor, ts[..k], per);
      GivenOut(sizes, slots, cursor, ts, per) == if k == |ts| || (k > 0 && r.1.Empty?) then Some(r) else None
    decreases |ts|
  {
    var k := Existing(ts, |slots|);
    if k > 0 {
      var t, rest := ts[0], ts[1..];
      assert ts[..k][0] == t && ts[..k][1..] == rest[..k - 1];
      var m := Moved(sizes, cursor, per, slots[t]);
      if m == 0 {
        GivenOutIff(sizes, slots, cursor, rest, per);
      } else {
        var slots', cursor' := slots[t := With(cursor, m, slots[t])], Less(cursor, m);
        GivenOutIff(sizes, slots', cursor', rest, per);
        if cursor'.Empty? { NoneLeftToSpread(sizes, slots', rest[..k - 1], per); }
      }
      if cursor.Empty? { NoneLeftToSpread(sizes, slots, rest[..k - 1], per); }
    }
  }

  /** The end of a drag, with its slots unwrapped. */
  function Finished(sizes: Sizes, slots: seq<Slot>, cursor: Slot, paint: Paint): Option<(seq<Slot>, Slot)>
    requires AllSound(sizes, slots) && Sound(sizes, cursor)
  {
    match paint.mouse
    case LeftButton =>
      if cursor.Empty? then Some((slots, cursor))
      else if Existing(paint.slots, |slots|) < |paint.slots| then None
      else
        assert paint.slots[..|paint.slots|] == paint.slots;
        var n := Takers(sizes, slots, cursor, paint.slots);
        if n == 0 then Some((slots, cursor)) else GivenOut(sizes, slots, cursor, paint.slots, Share(cursor.count, n))
    case RightButton => GivenOut(sizes, slots, cursor, paint.slots, 1)
  }

  /** No unwrapping at the end of a drag fails exactly if all its slots exist, or the cursor is empty
    * in a left drag, or the slots before the first missing one use it up in a right drag.
    */
  lemma FinishesIff(sizes: Sizes, slots: seq<Slot>, cursor: Slot, paint: Paint)
    requires AllSound(sizes, slots) && Sound(sizes, cursor)
    ensures Finished(sizes, slots, cursor, paint).Some? <==> Finishes(sizes, slots, cursor, paint)
    ensures Finishes(sizes, slots, cursor, paint) ==>
      Finished(sizes, slots, cursor, paint) == Some(Painted(sizes, slots, cursor, paint))
  {
    assert paint.slots[..|paint.slots|] == paint.slots;
    if paint.mouse.RightButton? {
      GivenOutIff(sizes, slots, cursor, paint.slots, 1);
    } else if cursor.Filled? && Existing(paint.slots, |slots|) == |paint.slots| {
      var n := Takers(sizes, slots, cursor, paint.slots);
      if n > 0 { GivenOutIff(sizes, slots, cursor, paint.slots, Share(cursor.count, n)); }
    }
  }

  lemma {:induction false} NothingIsLeft(per: nat, takers: nat)
    ensures Left(0, per, takers) == 0
  {
    if takers > 0 { NothingIsLeft(per, takers - 1); }
  }

  /** What is left in the cursor after spreading. */
  lemma {:induction false} SpreadLeaves(sizes: Sizes, slots: seq<Slot>, cursor: Slot, ts: seq<nat>, per: nat)
    requires AllSound(sizes, slots) && Sound(sizes, cursor) && Within(ts, |slots|) && NoRepeats(ts)
    requires cursor.Filled? && per > 0 && RoomFor(sizes, slots, cursor, ts, per)
    ensures Spread(sizes, slots, cursor, ts, per).1.Count() == Left(cursor.count, per, Takers(sizes, slots, cursor, ts))
    decreases |ts|
  {
    if ts != [] {
      var t, rest := ts[0], ts[1..];
      assert t !in rest;
      TakersFromFront(sizes, slots, cursor, ts);
      if Mergable(sizes, slots[t], cursor) {
        SpreadStep(sizes, slots, cursor, ts, per);
        var m := Min(per, cursor.count);
        var slots', cursor' := slots[t := With(cursor, m, slots[t])], Less(cursor, m);
        if cursor'.Empty? {
          NoneLeftToSpread(sizes, slots', rest, per);
          NothingIsLeft(per, Takers(sizes, slots, cursor, rest));
        } else {
          SameTakers(sizes, slots, cursor, slots', cursor', rest);
          SpreadLeaves(sizes, slots', cursor', rest, per);
        }
      } else {
        SpreadLeaves(sizes, slots, cursor, rest, per);
      }
    }
  }

  lemma {:induction false} RankIsBelowTakers(sizes: Sizes, slots: seq<Slot>, cursor: Slot, ts: seq<nat>, j: nat)
    requires Within(ts, |slots|) && j < |ts| && Mergable(sizes, slots[ts[j]], cursor)
    ensures Rank(sizes, slots, cursor, ts, j) < Takers(sizes, slots, cursor, ts)
  {
    var front := ts[..|ts| - 1];
    if j < |ts| - 1 {
      RankIsBelowTakers(sizes, slots, cursor, front, j);
      assert front[..j] == ts[..j];
    }
  }

  /** Main result on left drags: the items are split evenly among the `n` slots that can take them,
    * and the remainder stays in the cursor. If there are fewer items than slots, the first ones
    * get one each.
    */
  lemma LeftDragSplitsEvenly(sizes: Sizes, slots: seq<Slot>, cursor: Slot, ts: seq<nat>, j: nat)
    requires AllSound(sizes, slots) && Sound(sizes, cursor) && Within(ts, |slots|) && NoRepeats(ts)
    requires cursor.Filled? && j < |ts| && Takers(sizes, slots, cursor, ts) > 0
    requires RoomFor(sizes, slots, cursor, ts, Share(cursor.count, Takers(sizes, slots, cursor, ts)))
    ensures var (r, c) := Painted(sizes, slots, cursor, Paint(LeftButton, ts));
      var n := Takers(sizes, slots, cursor, ts);
      && (!Mergable(sizes, slots[ts[j]], cursor) ==> r[ts[j]] == slots[ts[j]])
      && (Mergable(sizes, slots[ts[j]], cursor) ==>
            r[ts[j]] == With(cursor,
                             if cursor.count >= n then cursor.count / n
                             else if Rank(sizes, slots, cursor, ts, j) < cursor.count then 1 else 0,
                             slots[ts[j]]))
      && c.Count() == (if cursor.count >= n then cursor.count % n else 0)
  {
    var n, count := Takers(sizes, slots, cursor, ts), cursor.count;
    assert ts[..|ts|] == ts;
    SpreadGives(sizes, slots, cursor, ts, Share(count, n), j);
    SpreadLeaves(sizes, slots, cursor, ts, Share(count, n));
    SharesOf(count, n, n);
    if Mergable(sizes, slots[ts[j]], cursor) {
      RankIsBelowTakers(sizes, slots, cursor, ts, j);
      SharesOf(count, n, Rank(sizes, slots, cursor, ts, j));
    }
  }

  /** A right drag gives one item to each slot that can take it, first come, first served. */
  lemma RightDragGivesOneEach(sizes: Sizes, slots: seq<Slot>, cursor: Slot, ts: seq<nat>, j: nat)
    requires AllSound(sizes, slots) && Sound(sizes, cursor) && Within(ts, |slots|) && NoRepeats(ts)
    requires cursor.Filled? && j < |ts| && RoomFor(sizes, slots, cursor, ts, 1)
    ensures var (r, c) := Painted(sizes, slots, cursor, Paint(RightButton, ts));
      var n := Takers(sizes, slots, cursor, ts);
      && (!Mergable(sizes, slots[ts[j]], cursor) ==> r[ts[j]] == slots[ts[j]])
      && (Mergable(sizes, slots[ts[j]], cursor) ==>
            r[ts[j]] == With(cursor, if Rank(sizes, slots, cursor, ts, j) < cursor.count then 1 else 0, slots[ts[j]]))
      && c.Count() == if cursor.count > n then cursor.count - n else 0
  {
    assert ts[..|ts|] == ts;
    SpreadGives(sizes, slots, cursor, ts, 1, j);
    SpreadLeaves(sizes, slots, cursor, ts, 1);
    LeftIsDifference(cursor.count, 1, Rank(sizes, slots, cursor, ts, j));
    LeftIsDifference(cursor.count, 1, Takers(sizes, slots, cursor, ts));
  }

  lemma {:induction false} LeftIsDifference(count: nat, per: nat, takers: nat)
    ensures Left(count, per, takers) == if count > per * takers then count - per * takers else 0
  {
    if takers > 0 {
      LeftIsDifference(if count > per then count - per else 0, per, takers - 1);
      assert per * takers == per * (takers - 1) + per;
    }
  }

  /** The first `rank` of `n` takers leave the next one its share; all of them leave the remainder. */
  lemma SharesOf(count: nat, n: nat, rank: nat)
    requires count > 0 && rank <= n && n > 0
    ensures rank == n ==> Left(count, Share(count, n), rank) == if count >= n then count % n else 0
    ensures rank < n ==>
      Gain(count, Share(count, n), rank) == if count >= n then count / n else if rank < count then 1 else 0
  {
    if count >= n {
      Quotient(count, n, rank);
      FullShares(count, count / n, n, count % n, rank);
    } else {
      OneEach(count, n);
      LeftIsDifference(count, 1, rank);
    }
  }

  lemma OneEach(count: nat, n: nat)
    requires count < n
    ensures Share(count, n) == 1
  {
  }

  lemma FullShares(count: nat, per: nat, n: nat, rest: nat, rank: nat)
    requires count == per * n + rest && rank <= n && (rank < n ==> per * rank + per <= per * n)
    ensures rank == n ==> Left(count, per, rank) == rest
    ensures rank < n ==> Gain(count, per, rank) == per
  {
    LeftIsDifference(count, per, rank);
  }

  lemma Quotient(count: nat, n: nat, rank: nat)
    requires 0 < n <= count && rank <= n
    ensures 1 <= count / n == Share(count, n)
    ensures count == (count / n) * n + count % n
    ensures rank < n ==> (count / n) * rank + count / n <= (count / n) * n
  {
    if rank < n { ProductGrows(count / n, rank + 1, n); }
  }

  lemma ProductGrows(a: nat, x: nat, y: nat)
    requires 0 < x <= y
    ensures a * (x - 1) + a <= a * y
  {
    assert a * y == a * (y - x) + a * x;
  }
}
