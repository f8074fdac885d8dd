/** How a column of a chunk gets its blocks: soil on top of the ground, stone below, bedrock at the
  * bottom, and water in oceans.
  */
module Composition {

  datatype Block = Air | Water(level: nat) | Bedrock | Stone | Other(name: string)

  const HEIGHT := 256
  const SEA_LEVEL := 64

  /** What a column is made from: where it is dense, the numbers below 4 that the random generator
    * gives, and the blocks of its biome.
    */
  datatype Column = Column(ocean: bool, solid: int -> bool, draw: int -> nat, topSoil: Block, underneath: Block) {
    ghost predicate Valid() {
      !topSoil.Air? && !underneath.Air? && forall y :: draw(y) < 4
    }
  }

  // ----- the depth function -----

  /** What is to be at a height: water, nothing (in the air over an ocean), bedrock, ground, or air. */
  datatype Part = Wet | Untouched | Bed | Ground | Gap

  function PartAt(c: Column, y: nat): Part {
    if c.ocean && y <= SEA_LEVEL && !c.solid(y) then Wet
    else if c.ocean && y >= SEA_LEVEL then Untouched
    else if y <= c.draw(y) then Bed
    else if c.solid(y) then Ground
    else Gap
  }

  /** How much ground there is above a height, up to the next gap. */
  function GroundAbove(c: Column, y: nat): nat
    decreases HEIGHT - y
  {
    if y + 1 >= HEIGHT then 0
    else match PartAt(c, y + 1)
      case Ground => GroundAbove(c, y + 1) + 1
      case Gap => 0
      case _ => GroundAbove(c, y + 1)
  }

  /** How much water there is above a height. */
  function WaterAbove(c: Column, y: nat): nat
    decreases HEIGHT - y
  {
    if y + 1 >= HEIGHT then 0
    else WaterAbove(c, y + 1) + if PartAt(c, y + 1).Wet? then 1 else 0
  }

  /** The levels of falling water: 0, then 8, 9 and so on up to 15. */
  function Level(above: nat): nat { if above == 0 then 0 else if above <= 8 then above + 7 else 15 }

  function BlockAt(c: Column, y: nat): Block {
    match PartAt(c, y)
    case Wet => Water(Level(WaterAbove(c, y)))
    case Untouched => Air
    case Bed => Bedrock
    case Ground => if GroundAbove(c, y) == 0 then c.topSoil else if GroundAbove(c, y) <= 3 then c.underneath else Stone
    case Gap => Air
  }

  // ----- the scan from top to bottom -----

  /** The soil that is still to be laid: -1 above the ground. */
  function Remaining(ground: nat): int { if ground == 0 then -1 else if ground <= 4 then 4 - ground else 0 }

  /** Fills the column from top to bottom; air is not set. */
  method ComposeColumn(c: Column, chunk: array<Block>)
    requires c.Valid() && chunk.Length == HEIGHT
    modifies chunk
    ensures forall y :: 0 <= y < HEIGHT ==> chunk[y] == if BlockAt(c, y).Air? then old(chunk[y]) else BlockAt(c, y)
  {
    var topsoilRemaining, waterLevel := -1, 0;
    var y := HEIGHT;
    while y > 0
      invariant 0 <= y <= HEIGHT
      invariant y > 0 ==>
        topsoilRemaining == Remaining(GroundAbove(c, y - 1)) && waterLevel == Level(WaterAbove(c, y - 1))
      invariant forall h :: 0 <= h < y ==> chunk[h] == old(chunk[h])
      invariant forall h :: y <= h < HEIGHT ==> chunk[h] == if BlockAt(c, h).Air? then old(chunk[h]) else BlockAt(c, h)
    {
      y := y - 1;
      var block := Air;
      var isSolid := c.solid(y);
      var skip := false;
      if c.ocean {
        if y <= SEA_LEVEL && !isSolid {
          block := Water(waterLevel);
          waterLevel := if waterLevel == 0 then 8 else if waterLevel + 1 <= 15 then waterLevel + 1 else 15;
          skip := true;
        } else if y >= SEA_LEVEL {
          continue;
        }
      }
      if !skip {
        if y <= c.draw(y) {
          block := Bedrock;
        } else if isSolid {
          if topsoilRemaining == -1 {
            topsoilRemaining := 3;
            block := c.topSoil;
          } else if topsoilRemaining > 0 {
            block := c.underneath;
            topsoilRemaining := topsoilRemaining - 1;
          } else {
            block := Stone;
          }
        } else {
          topsoilRemaining := -1;
          block := Air;
        }
      }
      if !block.Air? {
        chunk[y] := block;
      }
    }
  }

  // ----- what the columns look like -----

  /** Whether there are `n` blocks above a height and they are all dense. */
  ghost predicate SolidAbove(c: Column, y: nat, n: nat) {
    y + n < HEIGHT && forall h :: y < h <= y + n ==> c.solid(h)
  }

  lemma {:induction false} GroundOnLand(c: Column, y: nat, n: nat)
    requires c.Valid() && !c.ocean && 3 <= y < HEIGHT
    ensures GroundAbove(c, y) >= n <==> SolidAbove(c, y, n)
    decreases n
  {
    if n > 0 && y + 1 < HEIGHT {
      GroundOnLand(c, y + 1, n - 1);
      assert SolidAbove(c, y, n) <==> c.solid(y + 1) && SolidAbove(c, y + 1, n - 1);
    }
  }

  /** Main result on land, above the bedrock: a block is air where it is not dense; the first dense
    * block from above is top soil, the next three are the soil underneath, and all others are
    * stone.
    */
  lemma LandColumn(c: Column, y: nat)
    requires c.Valid() && !c.ocean && 4 <= y < HEIGHT
    ensures BlockAt(c, y)
         == if !c.solid(y) then Air
            else if !SolidAbove(c, y, 1) then c.topSoil
            else if !SolidAbove(c, y, 4) then c.underneath
            else Stone
  {
    GroundOnLand(c, y, 1);
    GroundOnLand(c, y, 4);
  }

  /** Oceans have no gaps: water does not end the ground. */
  lemma OceanHasNoGaps(c: Column, y: nat)
    requires c.ocean
    ensures PartAt(c, y) != Gap
  {
  }

  /** How much ground there is above a height in all. */
  function AllGroundAbove(c: Column, y: nat): nat
    decreases HEIGHT - y
  {
    if y + 1 >= HEIGHT then 0 else AllGroundAbove(c, y + 1) + if PartAt(c, y + 1).Ground? then 1 else 0
  }

  /** So an ocean column has soil on its uppermost ground only: below a cave that is full of water
    * there is stone and no new soil.
    */
  lemma {:induction false} OceanColumn(c: Column, y: nat)
    requires c.Valid() && c.ocean && y < HEIGHT
    ensures GroundAbove(c, y) == AllGroundAbove(c, y)
    ensures PartAt(c, y).Ground? ==>
      BlockAt(c, y) == if AllGroundAbove(c, y) == 0 then c.topSoil
                       else if AllGroundAbove(c, y) <= 3 then c.underneath else Stone
    decreases HEIGHT - y
  {
    if y + 1 < HEIGHT {
      OceanColumn(c, y + 1);
      OceanHasNoGaps(c, y + 1);
    }
  }

  // ----- bedrock and water -----

  /** At the bottom of the land, up to a random height below 4, there is bedrock; above, dense blocks
    * are ground and the others air.
    */
  lemma LandParts(c: Column, y: nat)
    requires c.Valid() && !c.ocean
    ensures y <= c.draw(y) ==> y < 4 && BlockAt(c, y) == Bedrock
    ensures y > c.draw(y) ==> if c.solid(y) then PartAt(c, y).Ground? else BlockAt(c, y) == Air
  {
  }

  /** The heights above `y` with water: those up to 64 that are not dense. */
  function WetHeights(c: Column, y: nat): set<int> { set h | y < h <= 64 && !c.solid(h) }

  lemma {:induction false} WaterIsCounted(c: Column, y: nat)
    requires c.ocean
    ensures WaterAbove(c, y) == |WetHeights(c, y)|
    decreases HEIGHT - y
  {
    if y + 1 < HEIGHT {
      WaterIsCounted(c, y + 1);
      if PartAt(c, y + 1).Wet? {
        assert WetHeights(c, y) == WetHeights(c, y + 1) + {y + 1};
      } else {
        assert WetHeights(c, y) == WetHeights(c, y + 1);
      }
    } else {
      assert WetHeights(c, y) == {};
    }
  }

  /** In an ocean: nothing above height 64, where dense blocks are left out too; below that water where
    * it is not dense, which falls from the uppermost on, and otherwise bedrock up to the random height
    * and ground.
    */
  lemma OceanParts(c: Column, y: nat)
    requires c.Valid() && c.ocean && y < HEIGHT
    ensures y > 64 || (y == 64 && c.solid(y)) ==> BlockAt(c, y) == Air
    ensures y <= 64 && !c.solid(y) ==>
      var n := |WetHeights(c, y)|;
      BlockAt(c, y) == Water(if n == 0 then 0 else if n < 8 then n + 7 else 15)
    ensures y < 64 && c.solid(y) ==>
      (PartAt(c, y).Ground? <==> y > c.draw(y)) && (y <= c.draw(y) ==> BlockAt(c, y) == Bedrock)
  {
    WaterIsCounted(c, y);
  }
}
