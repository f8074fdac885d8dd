/** Interpolation of a coarse grid of densities to one density for each block of a chunk, over reals. */
module Noise {

  /** Where a block is in the buffer: 256 places for each layer, and 16 for each row of a layer. */
  function Index(x: nat, y: nat, z: nat): nat {
    if y > 0 then Index(x, y - 1, z) + 256 else if z > 0 then Index(x, y, z - 1) + 16 else x
  }

  lemma {:induction false} IndexIsSum(x: nat, y: nat, z: nat)
    ensures Index(x, y, z) == y * 256 + z * 16 + x
    decreases y, z
  {
    if y > 0 {
      IndexIsSum(x, y - 1, z);
    } else if z > 0 {
      IndexIsSum(x, y, z - 1);
    }
  }

  /** The shifts and ors by which the index is computed are this sum. */
  lemma IndexOfBits(x: bv32, y: bv32, z: bv32)
    requires x < 16 && z < 16 && y < 0x100_0000
    ensures ((y << 8) | (z << 4)) | x == y * 256 + z * 16 + x
  {
  }

  lemma IndexIsInjective(x: nat, y: nat, z: nat, i: nat, j: nat, k: nat)
    requires x < 16 && z < 16 && i < 16 && k < 16 && Index(x, y, z) == Index(i, j, k)
    ensures x == i && y == j && z == k
  {
    IndexIsSum(x, y, z);
    IndexIsSum(i, j, k);
  }

  lemma Digits(n: nat)
    ensures n == (n / 256) * 256 + (n / 16 % 16) * 16 + n % 16
  {
    assert n / 256 == n / 16 / 16;
  }

  /** Different blocks have different places, and there are no others. */
  lemma IndexIsExact(height: nat, n: nat) returns (x: nat, y: nat, z: nat)
    requires n < 256 * height
    ensures x < 16 && y < height && z < 16 && Index(x, y, z) == n
    ensures forall x', y', z' :: 0 <= x' < 16 && 0 <= y' && 0 <= z' < 16 && Index(x', y', z') == n ==>
      x' == x && y' == y && z' == z
  {
    x, y, z := n % 16, n / 256, n / 16 % 16;
    Digits(n);
    IndexIsSum(x, y, z);
    forall x', y', z' | 0 <= x' < 16 && 0 <= y' && 0 <= z' < 16 && Index(x', y', z') == n
      ensures x' == x && y' == y && z' == z
    {
      IndexIsInjective(x', y', z', x, y, z);
    }
  }

  /** Adding `m` up `n` times. */
  function Times(n: nat, m: nat): nat { if n == 0 then 0 else Times(n - 1, m) + m }

  lemma {:induction false} TimesIsProduct(n: nat, m: nat)
    ensures Times(n, m) == n * m
  {
    if n > 0 {
      TimesIsProduct(n - 1, m);
      assert n * m == (n - 1) * m + m;
    }
  }

  /** A grid of densities. There are `horizontal` blocks along X and Z, and `vertical` along Y, from
    * one density to the next, and `across` and `up` such cells in a chunk that is 16 wide.
    */
  datatype Grid = Grid(densities: seq<real>, horizontal: nat, vertical: nat, across: nat, up: nat) {
    ghost predicate Valid() {
      && horizontal > 0 && vertical > 0 && Times(across, horizontal) == 16
      && |densities| >= (across + 1) * (up + 1) * (across + 1)
    }

    function Height(): nat { Times(up, vertical) }

    function UninterpolatedIndex(x: nat, y: nat, z: nat): nat {
      y * (across + 1) + x + (up + 1) * (across + 1) * z
    }

    predicate IsCorner(x: nat, y: nat, z: nat) { x <= across && y <= up && z <= across }

    /** The density at a corner of the grid. */
    function Density(x: nat, y: nat, z: nat): real
      requires Valid() && IsCorner(x, y, z)
    {
      CornersExist(this, x, y, z);
      densities[UninterpolatedIndex(x, y, z)]
    }
  }

  /** A valid grid has a density for each corner: no index is out of bounds. */
  lemma CornersExist(g: Grid, x: nat, y: nat, z: nat)
    requires g.Valid() && g.IsCorner(x, y, z)
    ensures g.UninterpolatedIndex(x, y, z) < |g.densities|
  {
    var length, height := g.across + 1, g.up + 1;
    assert y * length + x < height * length by { Monotone(y, g.up, length); }
    assert height * length * z + height * length <= height * length * length by {
      assert height * length * z + height * length == height * length * (z + 1);
      Monotone(z + 1, length, height * length);
      assert height * length * (z + 1) == (z + 1) * (height * length);
      assert length * (height * length) == height * length * length;
    }
    assert length * height * length == height * length * length;
  }

  /** Different corners have different densities. */
  lemma CornersDiffer(g: Grid, x: nat, y: nat, z: nat, i: nat, j: nat, k: nat)
    requires g.IsCorner(x, y, z) && g.IsCorner(i, j, k)
    requires g.UninterpolatedIndex(x, y, z) == g.UninterpolatedIndex(i, j, k)
    ensures x == i && y == j && z == k
  {
    var length, height := g.across + 1, g.up + 1;
    RowFits(length, height, x, y);
    RowFits(length, height, i, j);
    SameQuotient(height * length, z, y * length + x, k, j * length + i);
    SameQuotient(length, y, x, j, i);
  }

  lemma RowFits(length: nat, height: nat, x: nat, y: nat)
    requires x < length && y < height
    ensures y * length + x < height * length && y * length == length * y
  {
    Monotone(y + 1, height, length);
    assert (y + 1) * length == y * length + length;
  }

  lemma SameQuotient(w: nat, q: nat, r: nat, p: nat, t: nat)
    requires r < w && t < w && w * q + r == w * p + t
    ensures q == p && r == t
  {
    if q < p {
      NextMultiple(w, q, p);
    } else if p < q {
      NextMultiple(w, p, q);
    }
  }

  lemma {:induction false} NextMultiple(w: nat, q: nat, p: nat)
    requires q < p
    ensures w * q + w <= w * p
  {
    assert w * p == w * (p - 1) + w;
    if q + 1 < p { NextMultiple(w, q, p - 1); }
  }

  lemma Monotone(a: nat, b: nat, c: nat)
    requires a <= b
    ensures a * c <= b * c
  {
  }

  // ----- interpolation -----

  /** The value after `k` steps from `a`. */
  function Climb(a: real, step: real, k: nat): real { if k == 0 then a else Climb(a, step, k - 1) + step }

  /** The value `k` steps of `n` from `a` to `b`, by adding up the steps. */
  function Along(a: real, b: real, n: nat, k: nat): real
    requires n > 0
  {
    Climb(a, (b - a) / (n as real), k)
  }

  /** Adding up the steps gives the weighted mean of the ends, and the other end in the end. */
  lemma {:induction false} AlongIsMean(a: real, b: real, n: nat, k: nat)
    requires n > 0
    ensures Along(a, b, n, k) == Mean(a, b, k as real / n as real)
    ensures k == n ==> Along(a, b, n, k) == b
  {
    StepIsMean(a, b, n as real, k as real);
    if k > 0 { AlongIsMean(a, b, n, k - 1); }
  }

  function Mean(a: real, b: real, t: real): real { (1.0 - t) * a + t * b }

  lemma StepIsMean(a: real, b: real, n: real, k: real)
    requires n > 0.0
    ensures Mean(a, b, k / n) == Mean(a, b, (k - 1.0) / n) + (b - a) / n
    ensures Mean(a, b, 0.0 / n) == a && k == n ==> Mean(a, b, k / n) == b
  {
    var t, d := k / n, 1.0 / n;
    assert (k - 1.0) / n == t - d;
    assert (b - a) / n == (b - a) * d;
    assert (1.0 - t) * a == (1.0 - (t - d)) * a - d * a;
    assert t * b == (t - d) * b + d * b;
  }

  /** The densities at the four corners of a side of a cell. */
  datatype Corners = Corners(d1: real, d2: real, d3: real, d4: real)

  /** Densities are there for the corners of a grid only. */
  type Densities = (nat, nat, nat) --> real

  function DensitiesOf(g: Grid): (d: Densities)
    requires g.Valid()
    ensures HasCorners(d, g.across, g.up)
    ensures forall x: nat, y: nat, z: nat :: g.IsCorner(x, y, z) ==>
      d.requires(x, y, z) && d(x, y, z) == g.Density(x, y, z)
  {
    (x: nat, y: nat, z: nat) requires g.Valid() && g.IsCorner(x, y, z) => g.Density(x, y, z)
  }

  ghost predicate HasCorners(d: Densities, across: nat, up: nat) {
    forall x: nat, y: nat, z: nat :: x <= across && y <= up && z <= across ==> d.requires(x, y, z)
  }

  /** There are densities at the corners of the side of a cell at height `y`. */
  ghost predicate HasSide(d: Densities, x: nat, y: nat, z: nat) {
    d.requires(x, y, z) && d.requires(x + 1, y, z) && d.requires(x, y, z + 1) && d.requires(x + 1, y, z + 1)
  }

  ghost predicate HasCell(d: Densities, x: nat, y: nat, z: nat) {
    HasSide(d, x, y, z) && HasSide(d, x, y + 1, z)
  }

  /** The side of a cell at height `y`. */
  function Side(d: Densities, x: nat, y: nat, z: nat): Corners
    requires HasSide(d, x, y, z)
  {
    Corners(d(x, y, z), d(x + 1, y, z), d(x, y, z + 1), d(x + 1, y, z + 1))
  }

  /** The value inside a layer with these densities at its corners. */
  function Across(b1: real, b2: real, b3: real, b4: real, h: nat, dx: nat, dz: nat): real
    requires h > 0
  {
    Along(Along(b1, b2, h, dx), Along(b3, b4, h, dx), h, dz)
  }

  /** The value inside a cell with these densities below and above: interpolated along Y at the four
    * edges of the cell, then along X, then along Z.
    */
  function Between(low: Corners, high: Corners, h: nat, v: nat, dx: nat, dy: nat, dz: nat): real
    requires h > 0 && v > 0
  {
    Across(Along(low.d1, high.d1, v, dy), Along(low.d2, high.d2, v, dy),
           Along(low.d3, high.d3, v, dy), Along(low.d4, high.d4, v, dy), h, dx, dz)
  }

  /** In which cell of a given size a coordinate is, and where in it. */
  function CellOf(size: nat, x: nat): nat
    requires size > 0
  {
    if x < size then 0 else 1 + CellOf(size, x - size)
  }

  function InCell(size: nat, x: nat): (d: nat)
    requires size > 0
    ensures d < size
  {
    if x < size then x else InCell(size, x - size)
  }

  lemma {:induction false} CellsAdd(size: nat, x: nat)
    requires size > 0
    ensures x == Times(CellOf(size, x), size) + InCell(size, x)
  {
    if x >= size { CellsAdd(size, x - size); }
  }

  /** These are the quotient and the remainder. */
  lemma CellIsQuotient(size: nat, x: nat)
    requires size > 0
    ensures CellOf(size, x) == x / size && InCell(size, x) == x % size
  {
    CellsAdd(size, x);
    TimesIsProduct(CellOf(size, x), size);
    SameQuotient(size, x / size, x % size, CellOf(size, x), InCell(size, x));
  }

  lemma {:induction false} CellContains(size: nat, sub: nat, x: nat)
    requires Times(sub, size) <= x < Times(sub, size) + size
    ensures CellOf(size, x) == sub && InCell(size, x) == x - Times(sub, size)
  {
    if sub > 0 {
      CellContains(size, sub - 1, x - size);
    }
  }

  /** The density of a block of the chunk. */
  function Interpolated(d: Densities, h: nat, v: nat, x: nat, y: nat, z: nat): real
    requires h > 0 && v > 0 && HasCell(d, CellOf(h, x), CellOf(v, y), CellOf(h, z))
  {
    var i, j, k := CellOf(h, x), CellOf(v, y), CellOf(h, z);
    Between(Side(d, i, j, k), Side(d, i, j + 1, k), h, v, InCell(h, x), InCell(v, y), InCell(h, z))
  }

  // ----- what the interpolation promises -----

  /** The mean of the densities at the eight corners of a cell, weighted along Y, X and Z. */
  function Trilinear(low: Corners, high: Corners, tx: real, ty: real, tz: real): real {
    Mean(Mean(Mean(low.d1, high.d1, ty), Mean(low.d2, high.d2, ty), tx),
         Mean(Mean(low.d3, high.d3, ty), Mean(low.d4, high.d4, ty), tx), tz)
  }

  /** Main result on the interpolation: it is trilinear. Adding up steps gives, at each block of a
    * cell, the mean weighted by how far the block is from one side to the other.
    */
  lemma BetweenIsTrilinear(low: Corners, high: Corners, h: nat, v: nat, dx: nat, dy: nat, dz: nat)
    requires h > 0 && v > 0
    ensures Between(low, high, h, v, dx, dy, dz)
         == Trilinear(low, high, dx as real / h as real, dy as real / v as real, dz as real / h as real)
  {
    AlongIsMean(low.d1, high.d1, v, dy);
    AlongIsMean(low.d2, high.d2, v, dy);
    AlongIsMean(low.d3, high.d3, v, dy);
    AlongIsMean(low.d4, high.d4, v, dy);
    var b1, b2 := Along(low.d1, high.d1, v, dy), Along(low.d2, high.d2, v, dy);
    var b3, b4 := Along(low.d3, high.d3, v, dy), Along(low.d4, high.d4, v, dy);
    AlongIsMean(b1, b2, h, dx);
    AlongIsMean(b3, b4, h, dx);
    AlongIsMean(Along(b1, b2, h, dx), Along(b3, b4, h, dx), h, dz);
  }

  /** A value is the mean over the cell of a block, the quotients by the cell's sizes being the cell's
    * place in the grid and the remainders the block's place in the cell.
    */
  ghost predicate IsMeanAt(d: Densities, h: nat, v: nat, x: nat, y: nat, z: nat, r: real)
    requires h > 0 && v > 0
  {
    var i: nat, j: nat, k: nat := x / h, y / v, z / h;
    && HasCell(d, i, j, k)
    && r == Trilinear(Side(d, i, j, k), Side(d, i, j + 1, k),
                      (x % h) as real / h as real, (y % v) as real / v as real, (z % h) as real / h as real)
  }

  lemma InterpolatedIsMean(d: Densities, h: nat, v: nat, x: nat, y: nat, z: nat)
    requires h > 0 && v > 0 && HasCell(d, CellOf(h, x), CellOf(v, y), CellOf(h, z))
    ensures IsMeanAt(d, h, v, x, y, z, Interpolated(d, h, v, x, y, z))
  {
    CellIsQuotient(h, x);
    CellIsQuotient(v, y);
    CellIsQuotient(h, z);
    BetweenIsTrilinear(Side(d, x / h, y / v, z / h), Side(d, x / h, y / v + 1, z / h), h, v, x % h, y % v, z % h);
  }

  /** Neighbouring cells agree where they meet, and at their corners have the densities given. */
  lemma CellsMeet(d: Densities, h: nat, v: nat, x: nat, y: nat, z: nat, dx: nat, dy: nat, dz: nat)
    requires h > 0 && v > 0 && HasCell(d, x, y, z)
    ensures Between(Side(d, x, y, z), Side(d, x, y + 1, z), h, v, 0, 0, 0) == d(x, y, z)
    ensures HasCell(d, x + 1, y, z) ==>
      Between(Side(d, x, y, z), Side(d, x, y + 1, z), h, v, h, dy, dz)
        == Between(Side(d, x + 1, y, z), Side(d, x + 1, y + 1, z), h, v, 0, dy, dz)
    ensures HasCell(d, x, y + 1, z) ==>
      Between(Side(d, x, y, z), Side(d, x, y + 1, z), h, v, dx, v, dz)
        == Between(Side(d, x, y + 1, z), Side(d, x, y + 2, z), h, v, dx, 0, dz)
    ensures HasCell(d, x, y, z + 1) ==>
      Between(Side(d, x, y, z), Side(d, x, y + 1, z), h, v, dx, dy, h)
        == Between(Side(d, x, y, z + 1), Side(d, x, y + 1, z + 1), h, v, dx, dy, 0)
  {
    var low, high := Side(d, x, y, z), Side(d, x, y + 1, z);
    AlongIsMean(low.d1, high.d1, v, v);
    AlongIsMean(low.d2, high.d2, v, v);
    AlongIsMean(low.d3, high.d3, v, v);
    AlongIsMean(low.d4, high.d4, v, v);
    var b1, b2 := Along(low.d1, high.d1, v, dy), Along(low.d2, high.d2, v, dy);
    var b3, b4 := Along(low.d3, high.d3, v, dy), Along(low.d4, high.d4, v, dy);
    AlongIsMean(b1, b2, h, h);
    AlongIsMean(b3, b4, h, h);
    AlongIsMean(Along(b1, b2, h, dx), Along(b3, b4, h, dx), h, h);
  }

  // ----- the loops -----

  /** A block of a chunk of this height. */
  predicate InChunk(height: nat, x: int, y: int, z: int) { 0 <= x < 16 && 0 <= y < height && 0 <= z < 16 }

  /** A block of a box that begins at these coordinates, and has these sizes. */
  predicate InBox(w: nat, v: nat, l: nat, x0: int, y0: int, z0: int, x: int, y: int, z: int) {
    x0 <= x < x0 + w && y0 <= y < y0 + v && z0 <= z < z0 + l
  }

  /** The value at a block. */
  function At(buf: array<real>, height: nat, x: nat, y: nat, z: nat): real
    requires buf.Length == 256 * height && InChunk(height, x, y, z)
    reads buf
  {
    IndexIsSum(x, y, z);
    buf[Index(x, y, z)]
  }

  /** Of the blocks of a chunk, exactly those of a box have been written, each of them once. The places
    * that are written are recorded each time.
    */
  ghost predicate Wrote(writes: multiset<nat>, height: nat, w: nat, v: nat, l: nat, x0: int, y0: int, z0: int) {
    forall i, j, k :: InChunk(height, i, j, k) ==>
      writes[Index(i, j, k)] == if InBox(w, v, l, x0, y0, z0, i, j, k) then 1 else 0
  }

  /** Nothing has been written out of a chunk. */
  ghost predicate WroteInside(writes: multiset<nat>, height: nat) {
    forall n :: n in writes ==> n < 256 * height
  }

  /** The blocks out of a box are as they were. */
  twostate predicate OthersUnchanged(buf: array<real>, height: nat, w: nat, v: nat, l: nat, x0: int, y0: int, z0: int)
    requires buf.Length == 256 * height
    reads buf
  {
    forall i, j, k :: InChunk(height, i, j, k) && !InBox(w, v, l, x0, y0, z0, i, j, k) ==>
      At(buf, height, i, j, k) == old(At(buf, height, i, j, k))
  }

  /** Sets one value; no other block has its place. */
  method Set(height: nat, buf: array<real>, x: nat, y: nat, z: nat, value: real) returns (ghost writes: multiset<nat>)
    requires buf.Length == 256 * height && InChunk(height, x, y, z)
    modifies buf
    ensures At(buf, height, x, y, z) == value && OthersUnchanged(buf, height, 1, 1, 1, x, y, z)
    ensures Wrote(writes, height, 1, 1, 1, x, y, z) && WroteInside(writes, height)
  {
    IndexIsSum(x, y, z);
    buf[Index(x, y, z)] := value;
    writes := multiset{Index(x, y, z)};
    forall i, j, k | InChunk(height, i, j, k)
      ensures if InBox(1, 1, 1, x, y, z, i, j, k) then writes[Index(i, j, k)] == 1
              else writes[Index(i, j, k)] == 0 && At(buf, height, i, j, k) == old(At(buf, height, i, j, k))
    {
      if Index(i, j, k) == Index(x, y, z) { IndexIsInjective(x, y, z, i, j, k); }
    }
  }

  lemma WroteNextZ(a: multiset<nat>, b: multiset<nat>, height: nat, w: nat, v: nat, l: nat, m: nat,
                   x0: int, y0: int, z0: int)
    requires Wrote(a, height, w, v, l, x0, y0, z0) && Wrote(b, height, w, v, m, x0, y0, z0 + l)
    ensures Wrote(a + b, height, w, v, l + m, x0, y0, z0)
  {
  }

  lemma WroteNextX(a: multiset<nat>, b: multiset<nat>, height: nat, w: nat, u: nat, v: nat, l: nat,
                   x0: int, y0: int, z0: int)
    requires Wrote(a, height, w, v, l, x0, y0, z0) && Wrote(b, height, u, v, l, x0 + w, y0, z0)
    ensures Wrote(a + b, height, w + u, v, l, x0, y0, z0)
  {
  }

  lemma WroteNextY(a: multiset<nat>, b: multiset<nat>, height: nat, w: nat, v: nat, u: nat, l: nat,
                   x0: int, y0: int, z0: int)
    requires Wrote(a, height, w, v, l, x0, y0, z0) && Wrote(b, height, w, u, l, x0, y0 + v, z0)
    ensures Wrote(a + b, height, w, v + u, l, x0, y0, z0)
  {
  }

  /** The loop along Z, from the density at one end in steps towards the other end. */
  method FillAlongZ(height: nat, h: nat, buf: array<real>, x: nat, y: nat, z0: nat, zBase: real, step: real)
    returns (ghost writes: multiset<nat>)
    requires buf.Length == 256 * height && h > 0 && x < 16 && y < height && z0 + h <= 16
    modifies buf
    ensures Wrote(writes, height, 1, 1, h, x, y, z0) && WroteInside(writes, height)
    ensures OthersUnchanged(buf, height, 1, 1, h, x, y, z0)
    ensures forall k :: z0 <= k < z0 + h ==> At(buf, height, x, y, k) == Climb(zBase, step, k - z0)
  {
    var density := zBase;
    writes := multiset{};
    for blockz := 0 to h
      invariant density == Climb(zBase, step, blockz)
      invariant Wrote(writes, height, 1, 1, blockz, x, y, z0) && WroteInside(writes, height)
      invariant OthersUnchanged(buf, height, 1, 1, h, x, y, z0)
      invariant forall k :: z0 <= k < z0 + blockz ==> At(buf, height, x, y, k) == Climb(zBase, step, k - z0)
    {
      ghost var more := Set(height, buf, x, y, z0 + blockz, density);
      WroteNextZ(writes, more, height, 1, 1, blockz, 1, x, y, z0);
      writes := writes + more;
      density := density + step;
    }
  }

  /** The loop along X, from the densities at the two ends along Z of one side in steps towards the
    * other side.
    */
  method FillLayer(height: nat, h: nat, buf: array<real>, x0: nat, y: nat, z0: nat,
                   base1: real, step1: real, base3: real, step3: real)
    returns (ghost writes: multiset<nat>)
    requires buf.Length == 256 * height && h > 0 && x0 + h <= 16 && y < height && z0 + h <= 16
    modifies buf
    ensures Wrote(writes, height, h, 1, h, x0, y, z0) && WroteInside(writes, height)
    ensures OthersUnchanged(buf, height, h, 1, h, x0, y, z0)
    ensures forall i, k :: x0 <= i < x0 + h && z0 <= k < z0 + h ==>
      At(buf, height, i, y, k) == Along(Climb(base1, step1, i - x0), Climb(base3, step3, i - x0), h, k - z0)
  {
    var zBase, zCorner := base1, base3;
    writes := multiset{};
    for blockx := 0 to h
      invariant zBase == Climb(base1, step1, blockx) && zCorner == Climb(base3, step3, blockx)
      invariant Wrote(writes, height, blockx, 1, h, x0, y, z0) && WroteInside(writes, height)
      invariant OthersUnchanged(buf, height, h, 1, h, x0, y, z0)
      invariant forall i, k :: x0 <= i < x0 + blockx && z0 <= k < z0 + h ==>
        At(buf, height, i, y, k) == Along(Climb(base1, step1, i - x0), Climb(base3, step3, i - x0), h, k - z0)
    {
      ghost var more := FillAlongZ(height, h, buf, x0 + blockx, y, z0, zBase, (zCorner - zBase) / (h as real));
      WroteNextX(writes, more, height, blockx, 1, 1, h, x0, y, z0);
      writes := writes + more;
      zBase := zBase + step1;
      zCorner := zCorner + step3;
    }
  }

  /** The value inside a cell, with steps of these sizes upwards from the densities below. */
  function Layer(low: Corners, step: Corners, h: nat, dx: nat, dy: nat, dz: nat): real
    requires h > 0
  {
    Across(Climb(low.d1, step.d1, dy), Climb(low.d2, step.d2, dy),
           Climb(low.d3, step.d3, dy), Climb(low.d4, step.d4, dy), h, dx, dz)
  }

  /** The loop along Y, from the densities below in steps towards those above. */
  method FillLayers(height: nat, h: nat, v: nat, buf: array<real>, x0: nat, y0: nat, z0: nat,
                    low: Corners, step: Corners)
    returns (ghost writes: multiset<nat>)
    requires buf.Length == 256 * height && h > 0 && x0 + h <= 16 && y0 + v <= height && z0 + h <= 16
    modifies buf
    ensures Wrote(writes, height, h, v, h, x0, y0, z0) && WroteInside(writes, height)
    ensures OthersUnchanged(buf, height, h, v, h, x0, y0, z0)
    ensures forall i, j, k :: InBox(h, v, h, x0, y0, z0, i, j, k) ==>
      At(buf, height, i, j, k) == Layer(low, step, h, i - x0, j - y0, k - z0)
  {
    var base1, base2, base3, base4 := low.d1, low.d2, low.d3, low.d4;
    writes := multiset{};
    for blocky := 0 to v
      invariant base1 == Climb(low.d1, step.d1, blocky) && base2 == Climb(low.d2, step.d2, blocky)
      invariant base3 == Climb(low.d3, step.d3, blocky) && base4 == Climb(low.d4, step.d4, blocky)
      invariant Wrote(writes, height, h, blocky, h, x0, y0, z0) && WroteInside(writes, height)
      invariant OthersUnchanged(buf, height, h, v, h, x0, y0, z0)
      invariant forall i, j, k :: InBox(h, blocky, h, x0, y0, z0, i, j, k) ==>
        At(buf, height, i, j, k) == Layer(low, step, h, i - x0, j - y0, k - z0)
    {
      ghost var more := FillLayer(height, h, buf, x0, y0 + blocky, z0,
                                  base1, (base2 - base1) / (h as real), base3, (base4 - base3) / (h as real));
      WroteNextY(writes, more, height, h, blocky, 1, h, x0, y0, z0);
      writes := writes + more;
      base1, base2, base3, base4 := base1 + step.d1, base2 + step.d2, base3 + step.d3, base4 + step.d4;
    }
  }

  /** One cell of the grid, between the densities at its eight corners. */
  method FillCell(height: nat, h: nat, v: nat, buf: array<real>, x0: nat, y0: nat, z0: nat,
                  low: Corners, high: Corners)
    returns (ghost writes: multiset<nat>)
    requires buf.Length == 256 * height && h > 0 && v > 0 && x0 + h <= 16 && y0 + v <= height && z0 + h <= 16
    modifies buf
    ensures Wrote(writes, height, h, v, h, x0, y0, z0) && WroteInside(writes, height)
    ensures OthersUnchanged(buf, height, h, v, h, x0, y0, z0)
    ensures forall i, j, k :: InBox(h, v, h, x0, y0, z0, i, j, k) ==>
      At(buf, height, i, j, k) == Between(low, high, h, v, i - x0, j - y0, k - z0)
  {
    var offset1, offset2 := (high.d1 - low.d1) / (v as real), (high.d2 - low.d2) / (v as real);
    var offset3, offset4 := (high.d3 - low.d3) / (v as real), (high.d4 - low.d4) / (v as real);
    writes := FillLayers(height, h, v, buf, x0, y0, z0, low, Corners(offset1, offset2, offset3, offset4));
  }

  /** A block has the value that the densities around it ask for. */
  ghost predicate IsInterpolated(buf: array<real>, height: nat, d: Densities, h: nat, v: nat, x: nat, y: nat, z: nat)
    requires buf.Length == 256 * height && InChunk(height, x, y, z) && h > 0 && v > 0
    reads buf
  {
    && HasCell(d, CellOf(h, x), CellOf(v, y), CellOf(h, z))
    && At(buf, height, x, y, z) == Interpolated(d, h, v, x, y, z)
  }

  /** So have all blocks of a box. */
  ghost predicate Filled(buf: array<real>, height: nat, d: Densities, h: nat, v: nat,
                         w: nat, t: nat, l: nat, x0: int, y0: int, z0: int)
    requires buf.Length == 256 * height && h > 0 && v > 0
    reads buf
  {
    forall i, j, k :: InChunk(height, i, j, k) && InBox(w, t, l, x0, y0, z0, i, j, k) ==>
      IsInterpolated(buf, height, d, h, v, i, j, k)
  }

  /** One cell, as blocks of the chunk. */
  method FillSubchunk(height: nat, h: nat, v: nat, d: Densities, buf: array<real>, subx: nat, suby: nat, subz: nat,
                      x0: nat, y0: nat, z0: nat)
    returns (ghost writes: multiset<nat>)
    requires buf.Length == 256 * height && h > 0 && v > 0 && x0 + h <= 16 && y0 + v <= height && z0 + h <= 16
    requires x0 == Times(subx, h) && y0 == Times(suby, v) && z0 == Times(subz, h) && HasCell(d, subx, suby, subz)
    modifies buf
    ensures Wrote(writes, height, h, v, h, x0, y0, z0) && WroteInside(writes, height)
    ensures OthersUnchanged(buf, height, h, v, h, x0, y0, z0)
    ensures Filled(buf, height, d, h, v, h, v, h, x0, y0, z0)
  {
    writes := FillCell(height, h, v, buf, x0, y0, z0, Side(d, subx, suby, subz), Side(d, subx, suby + 1, subz));
    forall i, j, k | InChunk(height, i, j, k) && InBox(h, v, h, x0, y0, z0, i, j, k)
      ensures IsInterpolated(buf, height, d, h, v, i, j, k)
    {
      CellContains(h, subx, i);
      CellContains(v, suby, j);
      CellContains(h, subz, k);
    }
  }

  method FillSubz(height: nat, h: nat, v: nat, across: nat, up: nat, d: Densities, buf: array<real>,
                  subx: nat, suby: nat, x0: nat, y0: nat)
    returns (ghost writes: multiset<nat>)
    requires buf.Length == 256 * height && h > 0 && v > 0 && x0 + h <= 16 && y0 + v <= height
    requires Times(across, h) == 16 && subx < across && suby < up && HasCorners(d, across, up)
    requires x0 == Times(subx, h) && y0 == Times(suby, v)
    modifies buf
    ensures Wrote(writes, height, h, v, 16, x0, y0, 0) && WroteInside(writes, height)
    ensures OthersUnchanged(buf, height, h, v, 16, x0, y0, 0)
    ensures Filled(buf, height, d, h, v, h, v, 16, x0, y0, 0)
  {
    writes := multiset{};
    var z0 := 0;
    for subz := 0 to across
      invariant z0 == Times(subz, h) && z0 <= 16
      invariant Wrote(writes, height, h, v, z0, x0, y0, 0) && WroteInside(writes, height)
      invariant OthersUnchanged(buf, height, h, v, 16, x0, y0, 0)
      invariant Filled(buf, height, d, h, v, h, v, z0, x0, y0, 0)
    {
      TimesGrows(subz + 1, across, h);
      ghost var more := FillSubchunk(height, h, v, d, buf, subx, suby, subz, x0, y0, z0);
      WroteNextZ(writes, more, height, h, v, z0, h, x0, y0, 0);
      writes, z0 := writes + more, z0 + h;
    }
  }

  lemma {:induction false} TimesGrows(n: nat, n': nat, m: nat)
    requires n <= n'
    ensures Times(n, m) <= Times(n', m)
  {
    if n < n' { TimesGrows(n, n' - 1, m); }
  }

  method FillSuby(height: nat, h: nat, v: nat, across: nat, up: nat, d: Densities, buf: array<real>,
                  subx: nat, x0: nat)
    returns (ghost writes: multiset<nat>)
    requires buf.Length == 256 * height && h > 0 && v > 0 && x0 + h <= 16
    requires Times(across, h) == 16 && Times(up, v) == height && subx < across && HasCorners(d, across, up)
    requires x0 == Times(subx, h)
    modifies buf
    ensures Wrote(writes, height, h, height, 16, x0, 0, 0) && WroteInside(writes, height)
    ensures OthersUnchanged(buf, height, h, height, 16, x0, 0, 0)
    ensures Filled(buf, height, d, h, v, h, height, 16, x0, 0, 0)
  {
    writes := multiset{};
    var y0 := 0;
    for suby := 0 to up
      invariant y0 == Times(suby, v) && y0 <= height
      invariant Wrote(writes, height, h, y0, 16, x0, 0, 0) && WroteInside(writes, height)
      invariant OthersUnchanged(buf, height, h, height, 16, x0, 0, 0)
      invariant Filled(buf, height, d, h, v, h, y0, 16, x0, 0, 0)
    {
      TimesGrows(suby + 1, up, v);
      ghost var more := FillSubz(height, h, v, across, up, d, buf, subx, suby, x0, y0);
      WroteNextY(writes, more, height, h, y0, v, 16, x0, 0, 0);
      writes, y0 := writes + more, y0 + v;
    }
  }

  method FillSubx(height: nat, h: nat, v: nat, across: nat, up: nat, d: Densities, buf: array<real>)
    returns (ghost writes: multiset<nat>)
    requires buf.Length == 256 * height && h > 0 && v > 0
    requires Times(across, h) == 16 && Times(up, v) == height && HasCorners(d, across, up)
    modifies buf
    ensures Wrote(writes, height, 16, height, 16, 0, 0, 0) && WroteInside(writes, height)
    ensures Filled(buf, height, d, h, v, 16, height, 16, 0, 0, 0)
  {
    writes := multiset{};
    var x0 := 0;
    for subx := 0 to across
      invariant x0 == Times(subx, h) && x0 <= 16
      invariant Wrote(writes, height, x0, height, 16, 0, 0, 0) && WroteInside(writes, height)
      invariant Filled(buf, height, d, h, v, x0, height, 16, 0, 0, 0)
    {
      TimesGrows(subx + 1, across, h);
      ghost var more := FillSuby(height, h, v, across, up, d, buf, subx, x0);
      WroteNextX(writes, more, height, x0, h, height, 16, 0, 0, 0);
      writes, x0 := writes + more, x0 + h;
    }
  }

  /** All places of the buffer are written once, and there are no others. */
  lemma EachPlaceOnce(writes: multiset<nat>, height: nat, n: nat)
    requires Wrote(writes, height, 16, height, 16, 0, 0, 0) && WroteInside(writes, height)
    ensures writes[n] == if n < 256 * height then 1 else 0
  {
    if n < 256 * height {
      var x, y, z := IndexIsExact(height, n);
      assert InChunk(height, x, y, z);
    }
  }

  /** How the densities are laid out: one step along X is one density further on, one along Y is a row
    * of them, and one along Z is a layer of rows.
    */
  lemma DensitiesAreInRows(g: Grid, x: nat, y: nat, z: nat, n: nat)
    requires g.Valid() && g.IsCorner(x, y, z) && n == x + (g.across + 1) * (y + (g.up + 1) * z)
    ensures n < |g.densities| && g.Density(x, y, z) == g.densities[n]
  {
    CornersExist(g, x, y, z);
    RowsAndLayers(g.across + 1, g.up + 1, x, y, z);
  }

  lemma RowsAndLayers(length: nat, height: nat, x: nat, y: nat, z: nat)
    ensures x + length * (y + height * z) == y * length + x + height * length * z
  {
    assert length * (y + height * z) == length * y + length * (height * z);
    assert length * (height * z) == height * length * z;
  }

  /** A block has the mean of the densities at the corners of its cell, which are all in the grid. */
  ghost predicate IsTrilinear(buf: array<real>, g: Grid, x: nat, y: nat, z: nat)
    requires g.Valid() && buf.Length == 256 * g.Height() && InChunk(g.Height(), x, y, z)
    reads buf
  {
    IsMeanAt(DensitiesOf(g), g.horizontal, g.vertical, x, y, z, At(buf, g.Height(), x, y, z))
  }

  /** The whole buffer is filled, whatever it held before: each place is written exactly once, and each
    * block has the mean of the densities around it.
    */
  method Fill(g: Grid, buf: array<real>) returns (ghost writes: multiset<nat>)
    requires g.Valid() && buf.Length == 256 * g.Height()
    modifies buf
    ensures forall n: nat :: writes[n] == if n < buf.Length then 1 else 0
    ensures forall x, y, z :: InChunk(g.Height(), x, y, z) ==> IsTrilinear(buf, g, x, y, z)
  {
    writes := FillSubx(g.Height(), g.horizontal, g.vertical, g.across, g.up, DensitiesOf(g), buf);
    forall n: nat ensures writes[n] == if n < buf.Length then 1 else 0 { EachPlaceOnce(writes, g.Height(), n); }
    forall x, y, z | InChunk(g.Height(), x, y, z) ensures IsTrilinear(buf, g, x, y, z) {
      assert IsInterpolated(buf, g.Height(), DensitiesOf(g), g.horizontal, g.vertical, x, y, z);
      InterpolatedIsMean(DensitiesOf(g), g.horizontal, g.vertical, x, y, z);
    }
  }

  method Generate(g: Grid) returns (buf: array<real>)
    requires g.Valid()
    ensures fresh(buf) && buf.Length == 256 * g.Height()
    ensures forall x, y, z :: InChunk(g.Height(), x, y, z) ==> IsTrilinear(buf, g, x, y, z)
  {
    buf := new real[256 * g.Height()](_ => 0.0);
    ghost var writes := Fill(g, buf);
  }

  /** The sizes that are the default: cells of 4 by 8 by 4 blocks, in a chunk of 16 by 256 by 16. */
  lemma DefaultSizes(densities: seq<real>)
    requires |densities| == 5 * 33 * 5
    ensures var g := Grid(densities, 4, 8, 4, 32); g.Valid() && g.Height() == 256
  {
    TimesIsProduct(4, 4);
    TimesIsProduct(32, 8);
  }

  lemma MeanAtStart(low: Corners, high: Corners)
    ensures Trilinear(low, high, 0.0, 0.0, 0.0) == low.d1
  {
    assert forall a, b :: Mean(a, b, 0.0) == a;
  }

  /** Where a cell begins the value is the density given for that corner. */
  lemma MeanAtCorner(d: Densities, h: nat, v: nat, i: nat, j: nat, k: nat, x: nat, y: nat, z: nat, r: real)
    requires h > 0 && v > 0 && x == h * i && y == v * j && z == h * k && IsMeanAt(d, h, v, x, y, z, r)
    ensures d.requires(i, j, k) && r == d(i, j, k)
  {
    SameQuotient(h, x / h, x % h, i, 0);
    SameQuotient(v, y / v, y % v, j, 0);
    SameQuotient(h, z / h, z % h, k, 0);
    assert 0 as real / h as real == 0.0 && 0 as real / v as real == 0.0;
    MeanAtStart(Side(d, i, j, k), Side(d, i, j + 1, k));
  }

  /** With the default sizes: where the corners' densities are to be found in a filled buffer. */
  lemma DefaultCorners(g: Grid, buf: array<real>, i: nat, j: nat, k: nat, x: nat, y: nat, z: nat)
    requires |g.densities| == 5 * 33 * 5 && g == Grid(g.densities, 4, 8, 4, 32) && g.Valid() && g.Height() == 256
    requires i < 4 && j < 32 && k < 4 && x == 4 * i && y == 8 * j && z == 4 * k
    requires buf.Length == 256 * 256 && IsTrilinear(buf, g, x, y, z)
    ensures buf[256 * y + 16 * z + x] == g.densities[i + 5 * j + 165 * k]
  {
    IndexIsSum(x, y, z);
    MeanAtCorner(DensitiesOf(g), g.horizontal, g.vertical, i, j, k, x, y, z, At(buf, g.Height(), x, y, z));
    DensitiesAreInRows(g, i, j, k, i + 5 * j + 165 * k);
  }
}
