/** What a player sees of the world: a square of chunks. */
module Views {

  datatype Chunk = Chunk(x: int, z: int)

  datatype View = View(center: Chunk, distance: nat) {
    predicate IsEmpty() { distance == 0 }

    /** The bounds test, which does not ask whether the view is empty. */
    predicate Contains(c: Chunk) {
      center.x - distance <= c.x <= center.x + distance && center.z - distance <= c.z <= center.z + distance
    }

    /** The chunks in view, row by row. */
    function Iter(): seq<Chunk> {
      if IsEmpty() then [] else Rows(this, 2 * distance + 1)
    }

    /** Whether a chunk is in view. */
    predicate Shows(c: Chunk) { !IsEmpty() && Contains(c) }
  }

  const EMPTY_VIEW := View(Chunk(0, 0), 0)

  datatype ViewUpdate = ViewUpdate(oldView: View, newView: View)

  /** The chunks of a row with given x. */
  function Row(x: int, z: int, n: nat): (r: seq<Chunk>)
    ensures |r| == n && forall k :: 0 <= k < n ==> r[k] == Chunk(x, z + k)
  {
    if n == 0 then [] else Row(x, z, n - 1) + [Chunk(x, z + n - 1)]
  }

  /** The first `n` rows of a view. */
  function Rows(v: View, n: nat): seq<Chunk> {
    if n == 0 then []
    else Rows(v, n - 1) + Row(v.center.x - v.distance + n - 1, v.center.z - v.distance, 2 * v.distance + 1)
  }

  lemma {:induction false} RowsLength(v: View, n: nat)
    ensures |Rows(v, n)| == n * (2 * v.distance + 1)
  {
    if n > 0 {
      RowsLength(v, n - 1);
      assert n * (2 * v.distance + 1) == (n - 1) * (2 * v.distance + 1) + (2 * v.distance + 1);
    }
  }

  lemma {:induction false} RowsShow(v: View, n: nat, c: Chunk)
    ensures c in Rows(v, n) <==>
      && v.center.x - v.distance <= c.x < v.center.x - v.distance + n
      && v.center.z - v.distance <= c.z <= v.center.z + v.distance
  {
    if n > 0 {
      RowsShow(v, n - 1, c);
      var row := Row(v.center.x - v.distance + n - 1, v.center.z - v.distance, 2 * v.distance + 1);
      if c.x == v.center.x - v.distance + n - 1 && v.center.z - v.distance <= c.z <= v.center.z + v.distance {
        assert row[c.z - (v.center.z - v.distance)] == c;
      }
    }
  }

  lemma {:induction false} RowsDiffer(v: View, n: nat)
    ensures forall i, j :: 0 <= i < j < |Rows(v, n)| ==> Rows(v, n)[i] != Rows(v, n)[j]
  {
    if n > 0 {
      RowsDiffer(v, n - 1);
      forall c | c in Rows(v, n - 1) ensures c.x < v.center.x - v.distance + n - 1 {
        RowsShow(v, n - 1, c);
      }
    }
  }

  /** The chunks in view are those of a square, each of them once. */
  lemma IterIsSquare(v: View)
    ensures forall c :: c in v.Iter() <==> v.Shows(c)
    ensures forall i, j :: 0 <= i < j < |v.Iter()| ==> v.Iter()[i] != v.Iter()[j]
    ensures |v.Iter()| == if v.distance == 0 then 0 else (2 * v.distance + 1) * (2 * v.distance + 1)
  {
    if !v.IsEmpty() {
      RowsLength(v, 2 * v.distance + 1);
      RowsDiffer(v, 2 * v.distance + 1);
      forall c ensures c in v.Iter() <==> v.Shows(c) {
        RowsShow(v, 2 * v.distance + 1, c);
      }
    }
  }

  /** The bounds test agrees with the chunks in view everywhere but at the centre of an empty view. */
  lemma ContainsIffIter(v: View, c: Chunk)
    ensures v.Contains(c) == (c in v.Iter()) <==> !(v.IsEmpty() && c == v.center)
  {
    IterIsSquare(v);
  }

  function Chunks(v: View): (r: set<Chunk>)
    ensures forall c :: c in r <==> v.Shows(c)
  {
    IterIsSquare(v);
    set c | c in v.Iter()
  }

  /** The chunks in one view and not in the other. */
  function Difference(v: View, w: View): set<Chunk> { Chunks(v) - Chunks(w) }

  /** Of two views of the same size, not empty and not in the same place, neither covers the other. */
  lemma ViewsDiffer(v: View, w: View) returns (c: Chunk)
    requires v.distance == w.distance > 0 && v.center != w.center
    ensures v.Shows(c) && !w.Shows(c)
  {
    c := if w.center.x > v.center.x then Chunk(v.center.x - v.distance, v.center.z)
         else if w.center.x < v.center.x then Chunk(v.center.x + v.distance, v.center.z)
         else if w.center.z > v.center.z then Chunk(v.center.x, v.center.z - v.distance)
         else Chunk(v.center.x, v.center.z + v.distance);
  }
}
