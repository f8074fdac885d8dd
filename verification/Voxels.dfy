/** The block kinds, the memory that holds one chunk of them, and reads from it. */
module Voxels {
  import opened Options
  import opened FixedPoint

  datatype Block =
    | Air | Stone | Grass | Dirt | Cobblestone | OakPlanks | SprucePlanks | BirchPlanks | Water
    | Sand | Gravel | OakLog | SpruceLog | BirchLog | OakLeaves | SpruceLeaves | BirchLeaves | Glass

  const SIZE: int := 64
  const HALF: int := 32

  /** The contents of the chunk memory: one block for each of its 64 * 64 * 64 cells. */
  type Chunk = s: seq<Block> | |s| == SIZE * SIZE * SIZE witness seq(SIZE * SIZE * SIZE, _ => Air)

  /** Whether a voxel is inside the chunk, which is centred on the origin. */
  predicate InChunk(p: Vec3i) {
    -HALF <= p.x < HALF && -HALF <= p.y < HALF && -HALF <= p.z < HALF
  }

  /** The memory cell that holds the voxel with these re-centred coordinates. */
  function Cell(x: int, y: int, z: int): int {
    SIZE * (SIZE * z + y) + x
  }

  /** The block at a voxel, if it is inside the chunk. The re-centred coordinates are 16-bit sums
    * that are then converted to unsigned.
    */
  function Query(chunk: Chunk, p: Vec3i): (r: Option<Block>)
    ensures r.Some? <==> InChunk(p)
  {
    var x, y, z := Wrap16(p.x + HALF), Wrap16(p.y + HALF), Wrap16(p.z + HALF);
    if x < 0 || y < 0 || z < 0 then None
    else if x >= SIZE || y >= SIZE || z >= SIZE then None
    else Some(chunk[Cell(x, y, z)])
  }

  /** What the caches answer: the block of the voxel, and Air outside the chunk. */
  function Read(chunk: Chunk, p: Vec3i): Block {
    match Query(chunk, p)
    case Some(b) => b
    case None => Air
  }

  predicate IsCell(p: Vec3i, cell: int) { cell == (p.x + 32) + 64 * (p.y + 32) + 4096 * (p.z + 32) }

  /** How the memory is laid out: it has the voxels with coordinates from -32 to 31, one step along x
    * is one cell further on, one along y is 64 cells, and one along z is 4096.
    */
  lemma MemoryLayout(chunk: Chunk, p: Vec3i)
    ensures Query(chunk, p).Some? <==> -32 <= p.x < 32 && -32 <= p.y < 32 && -32 <= p.z < 32
    ensures Query(chunk, p).Some? ==>
      Query(chunk, p).value == chunk[(p.x + 32) + 64 * (p.y + 32) + 4096 * (p.z + 32)]
  {
  }

  /** A cell number's three digits of 64 are unique. */
  lemma Digits(x: int, y: int, z: int, cell: int)
    requires 0 <= x < 64 && 0 <= y < 64 && 0 <= z < 64 && cell == x + 64 * y + 4096 * z
    ensures x == cell % 64 && y == cell / 64 % 64 && z == cell / 4096
  {
    assert cell / 64 == y + 64 * z;
  }

  lemma CellHasDigits(cell: int)
    requires 0 <= cell < 64 * 64 * 64
    ensures cell == cell % 64 + 64 * (cell / 64 % 64) + 4096 * (cell / 4096) && 0 <= cell / 4096 < 64
  {
    assert cell / 64 / 64 == cell / 4096;
  }

  /** The voxels of the chunk and its memory cells correspond one to one: every cell holds exactly
    * one voxel, and what is read at that voxel is the block of that cell. There is none elsewhere.
    */
  lemma CellsAreVoxels(chunk: Chunk, cell: int)
    requires 0 <= cell < 64 * 64 * 64
    ensures exists p: Vec3i :: InChunk(p) && Query(chunk, p) == Some(chunk[cell]) && IsCell(p, cell)
    ensures forall p: Vec3i, q: Vec3i :: InChunk(p) && InChunk(q) && IsCell(p, cell) && IsCell(q, cell) ==> p == q
    ensures forall p: Vec3i :: !InChunk(p) ==> Query(chunk, p) == None
  {
    var p := Vec3i(cell % 64 - 32, cell / 64 % 64 - 32, cell / 4096 - 32);
    CellHasDigits(cell);
    MemoryLayout(chunk, p);
    assert InChunk(p) && Query(chunk, p) == Some(chunk[cell]) && IsCell(p, cell);
    forall q: Vec3i | InChunk(q) && IsCell(q, cell) ensures q == p {
      Digits(q.x + 32, q.y + 32, q.z + 32, cell);
    }
  }
}
