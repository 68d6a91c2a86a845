/** A matrix cut into h by w tiles, each stored row by row, the tiles one after the
    other with nt tiles to a row of tiles. */
module PackedTiles {
  import opened Powers
  import opened MatrixWindow

  datatype Tiling = Tiling(nt: nat, h: nat, w: nat) {

    predicate Ok() { nt > 0 && h > 0 && w > 0 }

    function Size(): (s: nat)
      ensures h > 0 && w > 0 ==> s > 0
    {
      h * w
    }

    /** The tile that position y of the packed array is in, and its row and column there. */
    function Tile(y: nat): nat
      requires Ok()
    {
      Quot(y, Size())
    }

    function InnerRow(y: nat): nat
      requires Ok()
    {
      Quot(Rem(y, Size()), w)
    }

    function InnerCol(y: nat): (v: nat)
      requires Ok()
      ensures v < w
    {
      Rem(Rem(y, Size()), w)
    }

    /** The row and column of the matrix that position y of the packed array holds. */
    function Row(y: nat): nat
      requires Ok()
    {
      Quot(Tile(y), nt) * h + InnerRow(y)
    }

    function Col(y: nat): nat
      requires Ok()
    {
      Rem(Tile(y), nt) * w + InnerCol(y)
    }

    /** The position of the element at row u and column v of tile t. */
    function Position(t: nat, u: nat, v: nat): nat { t * Size() + u * w + v }

    /** A tile as a window of the packed array. */
    function Window(t: nat): Op { Op([], 0, 0, [], 0, 0, t * Size(), w) }

    lemma PositionParts(t: nat, u: nat, v: nat)
      requires Ok() && u < h && v < w
      ensures Tile(Position(t, u, v)) == t && InnerRow(Position(t, u, v)) == u && InnerCol(Position(t, u, v)) == v
    {
      hide Quot, Rem;
      ProductMonotone(u, h - 1, w);
      assert (h - 1) * w == h * w - w;
      QuotRemUnique(Position(t, u, v), Size(), t, u * w + v);
      QuotRemUnique(u * w + v, w, u, v);
    }

    lemma PartsPosition(y: nat)
      requires Ok()
      ensures InnerRow(y) < h && y == Position(Tile(y), InnerRow(y), InnerCol(y))
    {
      hide Quot, Rem;
      QuotRem(y, Size());
      QuotRem(Rem(y, Size()), w);
      if InnerRow(y) >= h { ProductMonotone(h, InnerRow(y), w); }
    }

    lemma InTile(t: nat, y: nat)
      requires Ok()
      ensures Window(t).In(y, 0, h, 0, w) <==> Tile(y) == t
      ensures Tile(y) == t ==> Window(t).Row(y) == InnerRow(y) && Window(t).Col(y) == InnerCol(y)
    {
      hide Tile, InnerRow, InnerCol;
      var op := Window(t);
      PartsPosition(y);
      if Tile(y) == t {
        op.RowCol(InnerRow(y), InnerCol(y));
      } else if op.In(y, 0, h, 0, w) {
        op.RowColBack(y);
        PositionParts(t, op.Row(y), op.Col(y));
      }
    }

    /** The tile in tile row i and tile column j holds the rows from i*h and the columns from j*w. */
    lemma Placed(i: nat, j: nat, y: nat)
      requires Ok() && j < nt && Tile(y) == nt * i + j
      ensures Row(y) == i * h + InnerRow(y) && Col(y) == j * w + InnerCol(y)
    {
      hide Quot, Rem;
      QuotRemUnique(nt * i + j, nt, i, j);
    }

    /** Where the element at row r and column q is packed. */
    lemma Packed(r: nat, q: nat) returns (y: nat)
      requires Ok() && Quot(q, w) < nt
      ensures y == Position(nt * Quot(r, h) + Quot(q, w), Rem(r, h), Rem(q, w))
      ensures Row(y) == r && Col(y) == q
    {
      hide Quot, Rem;
      var t := nt * Quot(r, h) + Quot(q, w);
      y := Position(t, Rem(r, h), Rem(q, w));
      PositionParts(t, Rem(r, h), Rem(q, w));
      Placed(Quot(r, h), Quot(q, w), y);
      QuotRem(r, h);
      QuotRem(q, w);
    }

    /** Of nm rows of tiles, the one in tile row i and tile column j ends inside the packed array. */
    lemma TileFits(nm: nat, i: nat, j: nat)
      requires Ok() && i < nm && j < nt
      ensures (nt * i + j + 1) * Size() <= nm * nt * Size()
    {
      ProductMonotone(i, nm - 1, nt);
      assert nt * i + j + 1 <= nm * nt by { assert (nm - 1) * nt == nm * nt - nt; }
      ProductMonotone(nt * i + j + 1, nm * nt, Size());
    }
  }
}
