/** mm.c: mm_cb, which packs all full tiles of a, b and c, multiplies tile by tile, adds
    the fringes in place and unpacks c; and mm, which chooses between mm_rb and mm_cb. */
module CacheBlocking {
  import opened Powers
  import opened MatrixWindow
  import opened PackedTiles
  import opened BlockedMultiply

  /** Numbers of full tiles: nmb by npb of a, npb by nnb of b, nmb by nnb of c. */
  datatype Cut = Cut(op: Op, m: nat, n: nat, p: nat, nmb: nat, nnb: nat, npb: nat) {

    function TilesA(): Tiling { Tiling(npb, CBM, CBK) }
    function TilesB(): Tiling { Tiling(nnb, CBK, CBN) }
    function TilesC(): Tiling { Tiling(nnb, CBM, CBN) }

    /** a1 and b1 hold all full tiles of a and b. */
    ghost predicate Packed(a1: seq<real>, b1: seq<real>) {
      && |a1| == nmb * npb * TilesA().Size() && |b1| == npb * nnb * TilesB().Size()
      && (npb > 0 ==> PackedFrom(TilesA(), a1, op.a, op.oa, op.lda, nmb * npb))
      && (nnb > 0 ==> PackedFrom(TilesB(), b1, op.b, op.ob, op.ldb, npb * nnb))
    }

    /** The operands of one tile product: tile (i, k) of a1, tile (k, j) of b1, and a tile of c1. */
    function TileOp(a1: seq<real>, b1: seq<real>, i: nat, j: nat, k: nat): Op {
      Op(a1, (npb * i + k) * TilesA().Size(), CBK, b1, (nnb * k + j) * TilesB().Size(), CBN,
         (nnb * i + j) * TilesC().Size(), CBN)
    }

    lemma PackedElement(tl: Tiling, s: seq<real>, src: seq<real>, off: nat, ld: nat, nm: nat, i: nat, j: nat, u: nat,
                        v: nat)
      requires tl.Ok() && |s| == nm * tl.nt * tl.Size() && PackedFrom(tl, s, src, off, ld, nm * tl.nt)
      requires i < nm && j < tl.nt && u < tl.h && v < tl.w
      ensures At(s, tl.Position(tl.nt * i + j, u, v)) == At(src, off + (i * tl.h + u) * ld + (j * tl.w + v))
    {
      var t := tl.nt * i + j;
      var y := tl.Position(t, u, v);
      tl.PositionParts(t, u, v);
      tl.Placed(i, j, y);
      tl.TileFits(nm, i, j);
      TargetBounds(tl, nm, i, j);
      ProductMonotone(u, tl.h - 1, tl.w);
      assert tl.Tile(y) < nm * tl.nt by { ProductCancel(t, nm * tl.nt, tl.Size()); }
    }

    lemma TileTermA(a1: seq<real>, b1: seq<real>, i: nat, k: nat, u: nat, d: nat)
      requires Packed(a1, b1) && i < nmb && k < npb && u < CBM && d < CBK
      ensures At(a1, (npb * i + k) * TilesA().Size() + u * CBK + d) ==
              At(op.a, op.oa + (i * CBM + u) * op.lda + (k * CBK + d))
    {
      PackedElement(TilesA(), a1, op.a, op.oa, op.lda, nmb, i, k, u, d);
    }

    lemma TileTermB(a1: seq<real>, b1: seq<real>, j: nat, k: nat, v: nat, d: nat)
      requires Packed(a1, b1) && j < nnb && k < npb && v < CBN && d < CBK
      ensures At(b1, (nnb * k + j) * TilesB().Size() + d * CBN + v) ==
              At(op.b, op.ob + (k * CBK + d) * op.ldb + (j * CBN + v))
    {
      PackedElement(TilesB(), b1, op.b, op.ob, op.ldb, npb, k, j, d, v);
    }

    lemma TileTerm(a1: seq<real>, b1: seq<real>, i: nat, j: nat, k: nat, u: nat, v: nat, d: nat)
      requires Packed(a1, b1) && i < nmb && j < nnb && k < npb && u < CBM && v < CBN && d < CBK
      ensures TileOp(a1, b1, i, j, k).Term(u, v, d) == op.Term(i * CBM + u, j * CBN + v, k * CBK + d)
    {
      hide *;
      TileOperands(a1, b1, i, j, k, u, v, d);
      TileTermA(a1, b1, i, k, u, d);
      TileTermB(a1, b1, j, k, v, d);
      op.Factors(i * CBM + u, j * CBN + v, k * CBK + d);
    }

    lemma TileOperands(a1: seq<real>, b1: seq<real>, i: nat, j: nat, k: nat, u: nat, v: nat, d: nat)
      ensures TileOp(a1, b1, i, j, k).Term(u, v, d) ==
              At(a1, (npb * i + k) * TilesA().Size() + u * CBK + d) *
              At(b1, (nnb * k + j) * TilesB().Size() + d * CBN + v)
    {
      hide At, Tiling.Size;
    }

    lemma {:induction false} TileSum(a1: seq<real>, b1: seq<real>, i: nat, j: nat, k: nat, u: nat, v: nat, d: nat)
      requires Packed(a1, b1) && i < nmb && j < nnb && k < npb && u < CBM && v < CBN && d <= CBK
      ensures TileOp(a1, b1, i, j, k).Sum(u, v, 0, d) == op.Sum(i * CBM + u, j * CBN + v, k * CBK, k * CBK + d)
      decreases d
    {
      if d > 0 {
        TileSum(a1, b1, i, j, k, u, v, d - 1);
        TileTerm(a1, b1, i, j, k, u, v, d - 1);
        hide Op.Term, Packed, TileOp;
      }
    }

    /** Tile t of c1 gains its products over [lo, hi); nothing else changes. */
    ghost predicate TileGained(s: seq<real>, r: seq<real>, t: int, lo: int, hi: int)
      requires nnb > 0
    {
      |s| == |r| && forall y | 0 <= y < |s| ::
        r[y] == s[y] + if TilesC().Tile(y) == t then op.Sum(TilesC().Row(y), TilesC().Col(y), lo, hi) else 0.0
    }

    /** A product into the window of tile (i, j) of c1, whose sums are those of the whole. */
    lemma WindowGained(w: Op, s: seq<real>, r: seq<real>, i: nat, j: nat, d: nat, lo: int, hi: int)
      requires j < nnb && w.oc == (nnb * i + j) * TilesC().Size() && w.ldc == CBN
      requires w.Gained(s, r, 0, CBM, 0, CBN, 0, d)
      requires forall u: nat, v: nat | u < CBM && v < CBN ::
                 w.Sum(u, v, 0, d) == op.Sum(i * CBM + u, j * CBN + v, lo, hi)
      ensures TileGained(s, r, nnb * i + j, lo, hi)
    {
      var tl, t := TilesC(), nnb * i + j;
      forall y | 0 <= y < |s|
        ensures r[y] == s[y] + if tl.Tile(y) == t then op.Sum(tl.Row(y), tl.Col(y), lo, hi) else 0.0
      {
        tl.InTile(t, y);
        SameWindow(w, t, y);
        if tl.Tile(y) == t {
          tl.Placed(i, j, y);
          tl.PartsPosition(y);
        }
        hide Tiling.Tile, Tiling.Row, Tiling.Col, Tiling.InnerRow, Tiling.InnerCol, Op.Row, Op.Col;
      }
    }

    lemma SameWindow(w: Op, t: nat, y: nat)
      requires w.oc == t * TilesC().Size() && w.ldc == CBN
      ensures w.Row(y) == TilesC().Window(t).Row(y) && w.Col(y) == TilesC().Window(t).Col(y)
    {
    }

    lemma TileDeeper(s: seq<real>, r: seq<real>, q: seq<real>, t: int, lo: int, mid: int, hi: int)
      requires nnb > 0 && lo <= mid <= hi && TileGained(s, r, t, lo, mid) && TileGained(r, q, t, mid, hi)
      ensures TileGained(s, q, t, lo, hi)
    {
      forall y | 0 <= y < |s|
        ensures q[y] == s[y] + if TilesC().Tile(y) == t then op.Sum(TilesC().Row(y), TilesC().Col(y), lo, hi) else 0.0
      {
        op.SumSplit(TilesC().Row(y), TilesC().Col(y), lo, mid, hi);
        hide Tiling.Tile, Tiling.Row, Tiling.Col, Op.Sum;
      }
    }

    /** Tiles below t of c1 have gained all their products. */
    ghost predicate TilesGained(s: seq<real>, r: seq<real>, t: int)
      requires nnb > 0
    {
      |s| == |r| && forall y | 0 <= y < |s| ::
        r[y] == s[y] + if TilesC().Tile(y) < t then op.Sum(TilesC().Row(y), TilesC().Col(y), 0, p) else 0.0
    }

    lemma NextTile(s: seq<real>, r: seq<real>, q: seq<real>, t: int)
      requires nnb > 0 && TilesGained(s, r, t) && TileGained(r, q, t, 0, p)
      ensures TilesGained(s, q, t + 1)
    {
      hide Tiling.Tile, Tiling.Row, Tiling.Col;
    }

    /** The tiles of c1 hold all of c's full tiles at the start. */
    ghost predicate Ok(length: nat) {
      && op.Fits(m, n, p, length)
      && nmb * CBM <= m < nmb * CBM + CBM && nnb * CBN <= n < nnb * CBN + CBN && npb * CBK <= p < npb * CBK + CBK
    }

    lemma TileOpFits(a1: seq<real>, b1: seq<real>, i: nat, j: nat, k: nat, length: nat)
      requires Packed(a1, b1) && i < nmb && j < nnb && k < npb && length == nmb * nnb * TilesC().Size()
      ensures TileOp(a1, b1, i, j, k).Fits(CBM, CBN, CBK, length)
    {
      hide PackedFrom;
      TargetBounds(TilesA(), nmb, i, k);
      TargetBounds(TilesB(), npb, k, j);
      TargetBounds(TilesC(), nmb, i, j);
    }

    /** The operands for the depths that fill no tile: a and b in place, c packed. */
    function TailOp(i: nat, j: nat): Op {
      op.Sub(i * CBM, j * CBN, npb * CBK).(oc := (nnb * i + j) * TilesC().Size(), ldc := CBN)
    }

    lemma TailOpFits(i: nat, j: nat, len: nat, length: nat)
      requires Ok(len) && i < nmb && j < nnb && length == nmb * nnb * TilesC().Size()
      ensures TailOp(i, j).Fits(CBM, CBN, p - npb * CBK, length)
    {
      op.SubFits(m, n, p, len, i * CBM, j * CBN, npb * CBK, CBM, CBN, p - npb * CBK);
      TargetBounds(TilesC(), nmb, i, j);
    }

    lemma NoTileGain(s: seq<real>, t: int)
      requires nnb > 0
      ensures TileGained(s, s, t, 0, 0)
    {
    }

    /** One packed product along the depth. */
    lemma PackedStep(a1: seq<real>, b1: seq<real>, s: seq<real>, r: seq<real>, q: seq<real>, i: nat, j: nat, k: nat)
      requires Packed(a1, b1) && i < nmb && j < nnb && k < npb && TileGained(s, r, nnb * i + j, 0, k * CBK)
      requires TileOp(a1, b1, i, j, k).Gained(r, q, 0, CBM, 0, CBN, 0, CBK)
      ensures TileGained(s, q, nnb * i + j, 0, k * CBK + CBK)
    {
      hide Op.Gained, Packed, TileGained;
      var w := TileOp(a1, b1, i, j, k);
      forall u: nat, v: nat | u < CBM && v < CBN
        ensures w.Sum(u, v, 0, CBK) == op.Sum(i * CBM + u, j * CBN + v, k * CBK, k * CBK + CBK)
      {
        TileSum(a1, b1, i, j, k, u, v, CBK);
      }
      WindowGained(w, r, q, i, j, CBK, k * CBK, k * CBK + CBK);
      TileDeeper(s, r, q, nnb * i + j, 0, k * CBK, k * CBK + CBK);
    }

    /** The product over the rest of the depth. */
    lemma TailStep(s: seq<real>, r: seq<real>, q: seq<real>, i: nat, j: nat)
      requires npb * CBK <= p && j < nnb && TileGained(s, r, nnb * i + j, 0, npb * CBK)
      requires TailOp(i, j).Gained(r, q, 0, CBM, 0, CBN, 0, p - npb * CBK)
      ensures TileGained(s, q, nnb * i + j, 0, p)
    {
      hide Op.Gained, TileGained;
      var w, d := TailOp(i, j), p - npb * CBK;
      forall u: nat, v: nat | u < CBM && v < CBN
        ensures w.Sum(u, v, 0, d) == op.Sum(i * CBM + u, j * CBN + v, npb * CBK, p)
      {
        TailSum(i, j, u, v);
      }
      WindowGained(w, r, q, i, j, d, npb * CBK, p);
      TileDeeper(s, r, q, nnb * i + j, 0, npb * CBK, p);
    }

    lemma TailSum(i: nat, j: nat, u: nat, v: nat)
      requires npb * CBK <= p
      ensures TailOp(i, j).Sum(u, v, 0, p - npb * CBK) == op.Sum(i * CBM + u, j * CBN + v, npb * CBK, p)
    {
      op.Sub(i * CBM, j * CBN, npb * CBK).SumElsewhere((nnb * i + j) * TilesC().Size(), CBN, u, v, 0, p - npb * CBK);
      op.SubSum(i * CBM, j * CBN, npb * CBK, u, v, p - npb * CBK);
    }

    // ---- unpacking

    /** The tile of c1 that the element at position x of c belongs to, and its position in c1. */
    function Home(x: nat): nat
      requires op.In(x, 0, nmb * CBM, 0, nnb * CBN)
    {
      nnb * Quot(op.Row(x), CBM) + Quot(op.Col(x), CBN)
    }

    function Place(x: nat): nat
      requires op.In(x, 0, nmb * CBM, 0, nnb * CBN)
    {
      TilesC().Position(Home(x), Rem(op.Row(x), CBM), Rem(op.Col(x), CBN))
    }

    /** t is s with the first `tiles` tiles of c1 put back. */
    ghost predicate Unpacked(s: seq<real>, t: seq<real>, c1: seq<real>, tiles: int) {
      |s| == |t| && forall x | 0 <= x < |s| ::
        t[x] == if op.In(x, 0, nmb * CBM, 0, nnb * CBN) && Home(x) < tiles then At(c1, Place(x)) else s[x]
    }

    lemma NothingUnpacked(s: seq<real>, c1: seq<real>)
      ensures Unpacked(s, s, c1, 0)
    {
    }

    /** The elements of one tile are a rectangle of c. */
    lemma HomeTile(ti: nat, tj: nat, x: nat)
      requires ti < nmb && tj < nnb
      ensures op.In(x, ti * CBM, ti * CBM + CBM, tj * CBN, tj * CBN + CBN) <==>
              op.In(x, 0, nmb * CBM, 0, nnb * CBN) && Home(x) == nnb * ti + tj
      ensures op.In(x, ti * CBM, ti * CBM + CBM, tj * CBN, tj * CBN + CBN) ==>
              Place(x) == (nnb * ti + tj) * TilesC().Size() + (op.Row(x) - ti * CBM) * CBN + (op.Col(x) - tj * CBN)
    {
      hide Quot, Rem, Op.Row, Op.Col;
      if op.In(x, ti * CBM, ti * CBM + CBM, tj * CBN, tj * CBN + CBN) {
        QuotRemUnique(op.Row(x), CBM, ti, op.Row(x) - ti * CBM);
        QuotRemUnique(op.Col(x), CBN, tj, op.Col(x) - tj * CBN);
      } else if op.In(x, 0, nmb * CBM, 0, nnb * CBN) && Home(x) == nnb * ti + tj {
        QuotRem(op.Row(x), CBM);
        QuotRem(op.Col(x), CBN);
        QuotRemUnique(Home(x), nnb, Quot(op.Row(x), CBM), Quot(op.Col(x), CBN));
        QuotRemUnique(Home(x), nnb, ti, tj);
      }
    }

    /** Where a tile of c starts. */
    function Corner(i: nat, j: nat): Op { Op([], 0, 0, [], 0, 0, op.oc + i * op.ldc + j, op.ldc) }

    lemma CornerIn(ti: nat, tj: nat, x: nat)
      requires nnb * CBN <= op.ldc && tj < nnb
      ensures Corner(ti * CBM, tj * CBN).In(x, 0, CBM, 0, CBN) <==>
                op.In(x, ti * CBM, ti * CBM + CBM, tj * CBN, tj * CBN + CBN)
      ensures op.In(x, ti * CBM, ti * CBM + CBM, tj * CBN, tj * CBN + CBN) ==>
              Corner(ti * CBM, tj * CBN).Row(x) == op.Row(x) - ti * CBM &&
                Corner(ti * CBM, tj * CBN).Col(x) == op.Col(x) - tj * CBN
    {
      op.SubIn(ti * CBM, tj * CBN, 0, CBM, CBN, x);
      var v, w := Corner(ti * CBM, tj * CBN), op.Sub(ti * CBM, tj * CBN, 0);
      assert v.Row(x) == w.Row(x) && v.Col(x) == w.Col(x);
    }

    /** repack of one tile back into c. */
    lemma UnpackStep(ti: nat, tj: nat, s: seq<real>, r: seq<real>, q: seq<real>, c1: seq<real>)
      requires nnb * CBN <= op.ldc && ti < nmb && tj < nnb && Unpacked(s, r, c1, nnb * ti + tj)
      requires Copied(Corner(ti * CBM, tj * CBN), r, q, c1, (nnb * ti + tj) * TilesC().Size(), CBN, CBM, 0, CBN)
      ensures Unpacked(s, q, c1, nnb * ti + tj + 1)
    {
      var k := nnb * ti + tj;
      forall x | 0 <= x < |s|
        ensures q[x] == if op.In(x, 0, nmb * CBM, 0, nnb * CBN) && Home(x) < k + 1 then At(c1, Place(x)) else s[x]
      {
        HomeTile(ti, tj, x);
        CornerIn(ti, tj, x);
        hide Home, Place, Corner, Op.Row, Op.Col, Tiling.Size;
      }
    }

    /** Every element of the full tiles lies in c1 and is packed where its row and column say. */
    lemma PlaceParts(x: nat)
      requires op.In(x, 0, nmb * CBM, 0, nnb * CBN)
      ensures Home(x) < nmb * nnb && Place(x) < nmb * nnb * TilesC().Size()
      ensures TilesC().Tile(Place(x)) == Home(x) && TilesC().Row(Place(x)) == op.Row(x) &&
              TilesC().Col(Place(x)) == op.Col(x)
    {
      hide Quot, Rem, Tiling.Tile, Tiling.Row, Tiling.Col, Tiling.Size, Op.Row, Op.Col;
      var r, q := op.Row(x), op.Col(x);
      QuotRem(r, CBM);
      QuotRem(q, CBN);
      var ti, tj := Quot(r, CBM), Quot(q, CBN);
      assert ti < nmb && tj < nnb;
      var y := TilesC().Packed(r, q);
      TilesC().PositionParts(Home(x), Rem(r, CBM), Rem(q, CBN));
      TilesC().TileFits(nmb, ti, tj);
      PlaceBounds(Home(x), Rem(r, CBM), Rem(q, CBN), nmb * nnb);
    }

    lemma PlaceBounds(t: nat, u: nat, v: nat, tiles: nat)
      requires (t + 1) * TilesC().Size() <= tiles * TilesC().Size() && u < CBM && v < CBN
      ensures t < tiles && TilesC().Position(t, u, v) < tiles * TilesC().Size()
    {
    }

    /** Packed, multiplied tile by tile, with the fringes added in place, and unpacked: the whole product. */
    lemma WholeProduct(c0: seq<real>, r: seq<real>, q: seq<real>, p0: seq<real>, p1: seq<real>)
      requires Ok(|c0|) && |p0| == nmb * nnb * TilesC().Size()
      requires nnb > 0 ==> PackedFrom(TilesC(), p0, c0, op.oc, op.ldc, nmb * nnb) && TilesGained(p0, p1, nmb * nnb)
      requires FringesGained(c0, r) && Unpacked(r, q, p1, nmb * nnb)
      ensures op.Gained(c0, q, 0, m, 0, n, 0, p)
    {
      forall x | 0 <= x < |c0|
        ensures q[x] == c0[x] + if op.In(x, 0, m, 0, n) then op.Gain(x, 0, p) else 0.0
      {
        if op.In(x, 0, nmb * CBM, 0, nnb * CBN) {
          FullTileElement(x, c0, r, q, p0, p1);
        } else {
          FringeElement(x, c0, r, q, p1);
        }
        hide *;
      }
    }

    lemma FringeElement(x: nat, c0: seq<real>, r: seq<real>, q: seq<real>, p1: seq<real>)
      requires x < |c0| && nmb * CBM <= m && nnb * CBN <= n && !op.In(x, 0, nmb * CBM, 0, nnb * CBN)
      requires FringesGained(c0, r) && Unpacked(r, q, p1, nmb * nnb)
      ensures q[x] == c0[x] + if op.In(x, 0, m, 0, n) then op.Gain(x, 0, p) else 0.0
    {
      hide Home, Place, Op.Row, Op.Col, Op.Gain;
    }

    lemma FullTileElement(x: nat, c0: seq<real>, r: seq<real>, q: seq<real>, p0: seq<real>, p1: seq<real>)
      requires Ok(|c0|) && op.In(x, 0, nmb * CBM, 0, nnb * CBN) && x < |c0| && |p0| == nmb * nnb * TilesC().Size()
      requires nnb > 0 && PackedFrom(TilesC(), p0, c0, op.oc, op.ldc, nmb * nnb) && TilesGained(p0, p1, nmb * nnb)
      requires FringesGained(c0, r) && Unpacked(r, q, p1, nmb * nnb)
      ensures op.In(x, 0, m, 0, n) && q[x] == c0[x] + op.Gain(x, 0, p)
    {
      PlaceParts(x);
      op.RowColBack(x);
      var y := Place(x);
      assert q[x] == p1[y] by { hide Op.In, Home, Place, Tiling.Size, FringesGained, TilesGained; }
      assert p1[y] == c0[x] + op.Gain(x, 0, p) by {
        hide Home, Place, Op.In, Op.Row, Op.Col, Op.Sum, FringesGained, Unpacked;
        hide Tiling.Size, Tiling.Tile, Tiling.Row, Tiling.Col;
      }
      hide Home, Place, Op.Row, Op.Col, Op.Gain, PackedFrom, TilesGained, FringesGained, Unpacked;
    }

    /** Packing the full tiles and unpacking them changes nothing. */
    lemma RoundTrip(c0: seq<real>, c1: seq<real>, q: seq<real>)
      requires Ok(|c0|) && |c1| == nmb * nnb * TilesC().Size() && Unpacked(c0, q, c1, nmb * nnb)
      requires nnb > 0 ==> PackedFrom(TilesC(), c1, c0, op.oc, op.ldc, nmb * nnb)
      ensures q == c0
    {
      forall x | 0 <= x < |c0| ensures q[x] == c0[x] {
        if op.In(x, 0, nmb * CBM, 0, nnb * CBN) {
          PlaceParts(x);
          op.RowColBack(x);
        }
        hide Home, Place, Op.In, Op.Row, Op.Col, Tiling.Size, Tiling.Tile, Tiling.Row, Tiling.Col;
      }
    }

    /** All of the window but the full tiles of c has gained its products. */
    ghost predicate FringesGained(s: seq<real>, t: seq<real>) {
      |s| == |t| && forall x | 0 <= x < |s| ::
        t[x] == s[x] + if op.In(x, 0, nmb * CBM, nnb * CBN, n) || op.In(x, nmb * CBM, m, 0, n) then op.Gain(x, 0, p)
          else 0.0
    }

    lemma Fringes(s: seq<real>, r: seq<real>, t: seq<real>)
      requires op.Gained(s, r, 0, nmb * CBM, nnb * CBN, n, 0, p) && op.Gained(r, t, nmb * CBM, m, 0, n, 0, p)
      ensures FringesGained(s, t)
    {
      hide Op.Row, Op.Col, Op.Gain;
    }
  }

  /** The products of one tile of c1: the packed tiles along the depth, then what is left
      of the depth straight from a and b. */
  method MultiplyTile(i: nat, j: nat, ghost ti: nat, ghost tj: nat, a1: array<real>, b1: array<real>, c1: array<real>,
                      a: array<real>, oa: nat, lda: nat, b: array<real>, ob: nat, ldb: nat, nnb: nat, npb: nat, p: nat,
                      ghost cut: Cut, ghost length: nat)
    requires cut.op.a == a[..] && cut.op.oa == oa && cut.op.lda == lda && cut.op.b == b[..] && cut.op.ob == ob &&
             cut.op.ldb == ldb
    requires cut.nnb == nnb && cut.npb == npb && cut.p == p && cut.Ok(length)
    requires c1 != a1 && c1 != b1 && c1 != a && c1 != b && cut.Packed(a1[..], b1[..])
    requires c1.Length == cut.nmb * nnb * cut.TilesC().Size() && i == ti * CBM && j == tj * CBN && ti < cut.nmb &&
             tj < nnb
    modifies c1
    ensures cut.TileGained(old(c1[..]), c1[..], nnb * ti + tj, 0, p)
  {
    hide Op.Fits, Cut.Packed, Cut.TileGained, Tiling.Size;
    ghost var s, t := c1[..], nnb * ti + tj;
    var pb := npb * CBK;
    assert i / CBM == ti && j / CBN == tj;
    ghost var tk := 0;
    cut.NoTileGain(s, t);
    var k := 0;
    while k < pb
      invariant 0 <= tk <= npb && k == tk * CBK && cut.TileGained(s, c1[..], t, 0, k)
    {
      assert k / CBK == tk;
      ghost var r := c1[..];
      cut.TileOpFits(a1[..], b1[..], ti, tj, tk, c1.Length);
      TileSizes(nnb, npb);
      MmRb(CBM, CBN, CBK, a1, (npb * (i / CBM) + k / CBK) * (CBM * CBK), CBK, b1,
           (nnb * (k / CBK) + j / CBN) * (CBK * CBN), CBN,
           c1, (nnb * (i / CBM) + j / CBN) * (CBM * CBN), CBN, cut.TileOp(a1[..], b1[..], ti, tj, tk));
      cut.PackedStep(a1[..], b1[..], s, r, c1[..], ti, tj, tk);
      k := k + CBK;
      tk := tk + 1;
    }
    if pb < p {
      ghost var r := c1[..];
      cut.TailOpFits(ti, tj, length, c1.Length);
      TileSizes(nnb, npb);
      MmRb(CBM, CBN, p - pb, a, oa + i * lda + pb, lda, b, ob + pb * ldb + j, ldb,
           c1, (nnb * (i / CBM) + j / CBN) * (CBM * CBN), CBN, cut.TailOp(ti, tj));
      cut.TailStep(s, r, c1[..], ti, tj);
    }
  }

  lemma TileSizes(nnb: nat, npb: nat)
    ensures Tiling(npb, CBM, CBK).Size() == CBM * CBK && Tiling(nnb, CBK, CBN).Size() == CBK * CBN &&
            Tiling(nnb, CBM, CBN).Size() == CBM * CBN
  {
  }

  /** The product of h rows of a from row i with w columns of b from column j, the depth cut
      into pieces of CBK, added to c in place. */
  method Strip(i: nat, h: nat, j: nat, w: nat, m: nat, n: nat, p: nat, a: array<real>, oa: nat, lda: nat,
               b: array<real>, ob: nat, ldb: nat, c: array<real>, oc: nat, ldc: nat, ghost op: Op)
    requires op == Op(a[..], oa, lda, b[..], ob, ldb, oc, ldc) && c != a && c != b && op.Fits(m, n, p, c.Length)
    requires i + h <= m && j + w <= n
    modifies c
    ensures op.Gained(old(c[..]), c[..], i, i + h, j, j + w, 0, p)
  {
    hide Op.Gained;
    ghost var s := c[..];
    op.NoGain(s, i, i + h, j, j + w, 0, 0);
    var k := 0;
    while k < p
      invariant op.Gained(s, c[..], i, i + h, j, j + w, 0, Min(k, p))
    {
      ghost var r := c[..];
      var d := Min(p - k, CBK);
      op.SubFits(m, n, p, c.Length, i, j, k, h, w, d);
      MmRb(h, w, d, a, oa + i * lda + k, lda, b, ob + k * ldb + j, ldb, c, oc + i * ldc + j, ldc, op.Sub(i, j, k));
      op.SubGained(i, j, k, h, w, d, r, c[..]);
      op.Deeper(s, r, c[..], i, i + h, j, j + w, 0, k, k + d);
      k := k + CBK;
    }
  }

  /** The columns to the right of the full tiles, in the rows of one row of tiles. */
  method RightFringe(i: nat, nb: nat, m: nat, n: nat, p: nat, a: array<real>, oa: nat, lda: nat, b: array<real>,
                     ob: nat, ldb: nat, c: array<real>, oc: nat, ldc: nat, ghost op: Op)
    requires op == Op(a[..], oa, lda, b[..], ob, ldb, oc, ldc) && c != a && c != b && op.Fits(m, n, p, c.Length)
    requires i + CBM <= m && nb <= n
    modifies c
    ensures op.Gained(old(c[..]), c[..], i, i + CBM, nb, n, 0, p)
  {
    if nb < n {
      Strip(i, CBM, nb, n - nb, m, n, p, a, oa, lda, b, ob, ldb, c, oc, ldc, op);
    } else {
      op.NoGain(c[..], i, i + CBM, nb, n, 0, p);
    }
  }

  /** The rows below the full tiles. */
  method Bottom(mb: nat, m: nat, n: nat, p: nat, a: array<real>, oa: nat, lda: nat, b: array<real>, ob: nat, ldb: nat,
                c: array<real>, oc: nat, ldc: nat, ghost op: Op)
    requires op == Op(a[..], oa, lda, b[..], ob, ldb, oc, ldc) && c != a && c != b && op.Fits(m, n, p, c.Length) &&
             mb <= m
    modifies c
    ensures op.Gained(old(c[..]), c[..], mb, m, 0, n, 0, p)
  {
    hide Op.Gained, Op.Fits;
    ghost var s := c[..];
    if mb >= m {
      op.NoGain(s, mb, m, 0, n, 0, p);
      return;
    }
    op.NoGain(s, mb, m, 0, 0, 0, p);
    var j := 0;
    while j < n
      invariant op.Gained(s, c[..], mb, m, 0, Min(j, n), 0, p)
    {
      ghost var r := c[..];
      var w := Min(n - j, CBN);
      Strip(mb, m - mb, j, w, m, n, p, a, oa, lda, b, ob, ldb, c, oc, ldc, op);
      op.StackCols(s, r, c[..], mb, m, 0, j, j + w, 0, p);
      j := j + CBN;
    }
  }

  /** Tile row ti of c1. */
  method MultiplyTileRow(i: nat, nb: nat, ghost ti: nat, a1: array<real>, b1: array<real>, c1: array<real>,
                         a: array<real>, oa: nat, lda: nat, b: array<real>, ob: nat, ldb: nat, nnb: nat, npb: nat,
                         p: nat, ghost cut: Cut, ghost length: nat, ghost s: seq<real>)
    requires cut.op.a == a[..] && cut.op.oa == oa && cut.op.lda == lda && cut.op.b == b[..] && cut.op.ob == ob &&
             cut.op.ldb == ldb
    requires cut.nnb == nnb && cut.npb == npb && cut.p == p && cut.Ok(length)
    requires c1 != a1 && c1 != b1 && c1 != a && c1 != b && cut.Packed(a1[..], b1[..])
    requires c1.Length == cut.nmb * nnb * cut.TilesC().Size() && i == ti * CBM && nb == nnb * CBN && ti < cut.nmb
    requires nnb > 0 ==> cut.TilesGained(s, c1[..], nnb * ti)
    modifies c1
    ensures nnb > 0 ==> cut.TilesGained(s, c1[..], nnb * (ti + 1))
  {
    hide Cut.Packed, Cut.TileGained, Cut.TilesGained, Tiling.Size, Cut.Ok;
    ghost var tj := 0;
    var j := 0;
    while j < nb
      invariant 0 <= tj <= nnb && j == tj * CBN && (nnb > 0 ==> cut.TilesGained(s, c1[..], nnb * ti + tj))
    {
      ghost var r := c1[..];
      MultiplyTile(i, j, ti, tj, a1, b1, c1, a, oa, lda, b, ob, ldb, nnb, npb, p, cut, length);
      cut.NextTile(s, r, c1[..], nnb * ti + tj);
      j := j + CBN;
      tj := tj + 1;
    }
  }

  /** The loops around repack that put c1 back. */
  method Unpack(mb: nat, nb: nat, nnb: nat, c1: array<real>, c: array<real>, oc: nat, ldc: nat, ghost cut: Cut)
    requires cut.op.oc == oc && cut.op.ldc == ldc && cut.nnb == nnb && cut.Ok(c.Length) && c != c1
    requires c1.Length == cut.nmb * nnb * cut.TilesC().Size() && mb == cut.nmb * CBM && nb == nnb * CBN
    modifies c
    ensures cut.Unpacked(old(c[..]), c[..], c1[..], cut.nmb * nnb)
  {
    hide Cut.Unpacked, Tiling.Size, Cut.Ok;
    ghost var s := c[..];
    cut.NothingUnpacked(s, c1[..]);
    ghost var ti := 0;
    var i := 0;
    while i < mb
      invariant 0 <= ti <= cut.nmb && i == ti * CBM && cut.Unpacked(s, c[..], c1[..], nnb * ti)
    {
      UnpackRow(i, ti, nb, nnb, c1, c, oc, ldc, cut, s);
      i := i + CBM;
      ti := ti + 1;
    }
  }

  lemma TileAt(i: nat, ti: nat, j: nat, tj: nat)
    requires i == ti * CBM && j == tj * CBN
    ensures i / CBM == ti && j / CBN == tj
  {
  }

  method UnpackRow(i: nat, ghost ti: nat, nb: nat, nnb: nat, c1: array<real>, c: array<real>, oc: nat, ldc: nat,
                   ghost cut: Cut, ghost s: seq<real>)
    requires cut.op.oc == oc && cut.op.ldc == ldc && cut.nnb == nnb && cut.Ok(c.Length) && c != c1
    requires c1.Length == cut.nmb * nnb * cut.TilesC().Size() && i == ti * CBM && ti < cut.nmb && nb == nnb * CBN
    requires cut.Unpacked(s, c[..], c1[..], nnb * ti)
    modifies c
    ensures cut.Unpacked(s, c[..], c1[..], nnb * (ti + 1))
  {
    hide Cut.Unpacked, Tiling.Size, Cut.Ok, Copied;
    ghost var tj := 0;
    var j := 0;
    while j < nb
      invariant 0 <= tj <= nnb && j == tj * CBN && cut.Unpacked(s, c[..], c1[..], nnb * ti + tj)
    {
      ghost var r := c[..];
      UnpackBounds(cut, ti, tj, c.Length);
      TileSizes(nnb, cut.npb);
      TileAt(i, ti, j, tj);
      Repack(c, oc + i * ldc + j, ldc, c1, (nnb * (i / CBM) + j / CBN) * (CBM * CBN), CBN, CBM, CBN,
             cut.Corner(ti * CBM, tj * CBN));
      cut.UnpackStep(ti, tj, s, r, c[..], c1[..]);
      j := j + CBN;
      tj := tj + 1;
    }
  }

  lemma UnpackBounds(cut: Cut, ti: nat, tj: nat, length: nat)
    requires cut.Ok(length) && ti < cut.nmb && tj < cut.nnb
    ensures cut.Corner(ti * CBM, tj * CBN).Fits(CBM, CBN, 0, length) && cut.nnb * CBN <= cut.op.ldc
    ensures (cut.nnb * ti + tj) * cut.TilesC().Size() + (CBM - 1) * CBN + CBN <= cut.nmb * cut.nnb * cut.TilesC().Size()
  {
    TargetBounds(cut.TilesC(), cut.nmb, ti, tj);
    cut.op.SubFits(cut.m, cut.n, cut.p, length, ti * CBM, tj * CBN, 0, CBM, CBN, 0);
  }

  /** Where the full tiles of an m by n matrix end. */
  lemma FullTiles(mb: nat, m: nat, nb: nat, n: nat, off: nat, ld: nat, length: nat)
    requires mb <= m && nb <= n && (m > 0 && n > 0 ==> off + (m - 1) * ld + n <= length)
    ensures mb > 0 && nb > 0 ==> off + (mb - 1) * ld + nb <= length
  {
    if mb > 0 { ProductMonotone(mb - 1, m - 1, ld); }
  }

  lemma CutOk(op: Op, m: nat, n: nat, p: nat, length: nat)
    requires op.Fits(m, n, p, length)
    ensures Cut(op, m, n, p, m / CBM, n / CBN, p / CBK).Ok(length)
  {
  }

  lemma PackedSizes(h: nat, w: nat, nm: nat, nt: nat)
    ensures (nm * h) * (nt * w) == nm * nt * Tiling(nt, h, w).Size()
  {
    calc {
      (nm * h) * (nt * w);
      nm * (h * (nt * w));
      { assert h * (nt * w) == nt * (h * w); }
      nm * (nt * (h * w));
      nm * nt * (h * w);
    }
  }

  /** A new array with all full tiles of an m by n window of src. */
  method PackNew(tl: Tiling, nm: nat, mb: nat, ghost m: nat, nb: nat, ghost n: nat, src: array<real>, off: nat, ld: nat)
    returns (dst: array<real>)
    requires tl.h > 0 && tl.w > 0 && mb == nm * tl.h <= m && nb == tl.nt * tl.w <= n
    requires m > 0 && n > 0 ==> off + (m - 1) * ld + n <= src.Length
    ensures fresh(dst) && dst.Length == nm * tl.nt * tl.Size()
    ensures tl.nt > 0 ==> PackedFrom(tl, dst[..], src[..], off, ld, nm * tl.nt)
  {
    hide *;
    PackedSizes(tl.h, tl.w, nm, tl.nt);
    FullTiles(mb, m, nb, n, off, ld, src.Length);
    dst := new real[mb * nb];
    PackTiles(tl, nm, mb, nb, dst, src, off, ld);
  }

  /** All full tiles of a and of b, packed. */
  method PackOperands(mb: nat, nb: nat, pb: nat, nnb: nat, npb: nat, a: array<real>, oa: nat, lda: nat, b: array<real>,
                      ob: nat, ldb: nat, ghost cut: Cut, ghost length: nat)
    returns (a1: array<real>, b1: array<real>)
    requires cut.op.a == a[..] && cut.op.oa == oa && cut.op.lda == lda && cut.op.b == b[..] && cut.op.ob == ob &&
             cut.op.ldb == ldb
    requires cut.nnb == nnb && cut.npb == npb && mb == cut.nmb * CBM && nb == nnb * CBN && pb == npb * CBK &&
             cut.Ok(length)
    ensures fresh(a1) && fresh(b1) && cut.Packed(a1[..], b1[..])
  {
    hide PackedFrom, Tiling.Size;
    a1 := PackNew(Tiling(npb, CBM, CBK), mb / CBM, mb, cut.m, pb, cut.p, a, oa, lda);
    b1 := PackNew(Tiling(nnb, CBK, CBN), npb, pb, cut.p, nb, cut.n, b, ob, ldb);
  }

  /** The loop invariant of the middle of mm_cb: ti rows of tiles are multiplied, with the fringe to their right. */
  ghost predicate RowsDone(cut: Cut, s: seq<real>, t: seq<real>, s1: seq<real>, t1: seq<real>, ti: int) {
    && cut.op.Gained(s, t, 0, ti * CBM, cut.nnb * CBN, cut.n, 0, cut.p)
    && (cut.nnb > 0 ==> cut.TilesGained(s1, t1, cut.nnb * ti))
  }

  /** One row of tiles, and the fringe to its right. */
  method BlockRow(i: nat, nb: nat, nnb: nat, npb: nat, ghost ti: nat, m: nat, n: nat, p: nat, a: array<real>, oa: nat,
                  lda: nat, b: array<real>, ob: nat, ldb: nat, c: array<real>, oc: nat, ldc: nat, a1: array<real>,
                  b1: array<real>, c1: array<real>, ghost cut: Cut, ghost s: seq<real>, ghost s1: seq<real>)
    requires cut.op == Op(a[..], oa, lda, b[..], ob, ldb, oc, ldc) && cut.Ok(c.Length)
    requires cut.m == m && cut.n == n && cut.p == p && cut.nnb == nnb && cut.npb == npb
    requires c != a && c != b && c != a1 && c != b1 && c != c1 && c1 != a1 && c1 != b1 && c1 != a && c1 != b
    requires cut.Packed(a1[..], b1[..]) && c1.Length == cut.nmb * nnb * cut.TilesC().Size()
    requires ti < cut.nmb && i == ti * CBM && nb == nnb * CBN && RowsDone(cut, s, c[..], s1, c1[..], ti)
    modifies c, c1
    ensures RowsDone(cut, s, c[..], s1, c1[..], ti + 1)
  {
    ghost var op := cut.op;
    assert op.Fits(m, n, p, c.Length) && i + CBM <= m && nb <= n;
    hide Op.Fits, Op.Gained, Cut.Ok, Cut.Packed, Cut.TilesGained, Tiling.Size;
    MultiplyTileRow(i, nb, ti, a1, b1, c1, a, oa, lda, b, ob, ldb, nnb, npb, p, cut, c.Length, s1);
    ghost var r := c[..];
    RightFringe(i, nb, m, n, p, a, oa, lda, b, ob, ldb, c, oc, ldc, op);
    op.StackRows(s, r, c[..], i, i + CBM, nb, n, 0, p);
  }

  /** The middle of mm_cb: every tile of c1, with the fringe to its right, and then the rows below. */
  method MultiplyBlocks(nmb: nat, nnb: nat, npb: nat, m: nat, n: nat, p: nat, a: array<real>, oa: nat, lda: nat,
                        b: array<real>, ob: nat, ldb: nat, c: array<real>, oc: nat, ldc: nat,
                        a1: array<real>, b1: array<real>, c1: array<real>, ghost cut: Cut)
    requires cut == Cut(Op(a[..], oa, lda, b[..], ob, ldb, oc, ldc), m, n, p, nmb, nnb, npb) && cut.Ok(c.Length)
    requires c != a && c != b && c != a1 && c != b1 && c != c1 && c1 != a1 && c1 != b1 && c1 != a && c1 != b
    requires cut.Packed(a1[..], b1[..]) && c1.Length == nmb * nnb * cut.TilesC().Size()
    modifies c, c1
    ensures cut.FringesGained(old(c[..]), c[..]) && (nnb > 0 ==> cut.TilesGained(old(c1[..]), c1[..], nmb * nnb))
  {
    hide RowsDone, Op.Fits, Op.Gained, Cut.Ok, Cut.Packed, Cut.TilesGained, Cut.FringesGained, Tiling.Size;
    ghost var s, s1 := c[..], c1[..];
    NoRowsDone(cut, s, s1);
    CutFits(cut, c.Length);
    var mb, nb := nmb * CBM, nnb * CBN;
    ghost var ti := 0;
    var i := 0;
    while i < mb
      invariant 0 <= ti <= nmb && i == ti * CBM && RowsDone(cut, s, c[..], s1, c1[..], ti)
    {
      BlockRow(i, nb, nnb, npb, ti, m, n, p, a, oa, lda, b, ob, ldb, c, oc, ldc, a1, b1, c1, cut, s, s1);
      i := i + CBM;
      ti := ti + 1;
    }
    ghost var r := c[..];
    AllRowsDone(cut, s, r, s1, c1[..]);
    Bottom(mb, m, n, p, a, oa, lda, b, ob, ldb, c, oc, ldc, cut.op);
    cut.Fringes(s, r, c[..]);
  }

  lemma CutFits(cut: Cut, length: nat)
    requires cut.Ok(length)
    ensures cut.op.Fits(cut.m, cut.n, cut.p, length) && cut.nmb * CBM <= cut.m && cut.nnb * CBN <= cut.n
  {
  }

  lemma NoRowsDone(cut: Cut, s: seq<real>, s1: seq<real>)
    ensures RowsDone(cut, s, s, s1, s1, 0)
  {
  }

  lemma AllRowsDone(cut: Cut, s: seq<real>, t: seq<real>, s1: seq<real>, t1: seq<real>)
    requires RowsDone(cut, s, t, s1, t1, cut.nmb)
    ensures cut.op.Gained(s, t, 0, cut.nmb * CBM, cut.nnb * CBN, cut.n, 0, cut.p)
    ensures cut.nnb > 0 ==> cut.TilesGained(s1, t1, cut.nmb * cut.nnb)
  {
    hide Op.Gained, Cut.TilesGained;
  }

  /** mm_cb. */
  method MmCb(m: nat, n: nat, p: nat, a: array<real>, oa: nat, lda: nat, b: array<real>, ob: nat, ldb: nat,
              c: array<real>, oc: nat, ldc: nat, ghost op: Op)
    requires op == Op(a[..], oa, lda, b[..], ob, ldb, oc, ldc) && c != a && c != b && op.Fits(m, n, p, c.Length)
    modifies c
    ensures op.Gained(old(c[..]), c[..], 0, m, 0, n, 0, p)
  {
    hide Op.Gained, Cut.Ok, Cut.Packed, Cut.TilesGained, Cut.FringesGained, Cut.Unpacked, Tiling.Size, PackedFrom;
    var nmb, nnb, npb := m / CBM, n / CBN, p / CBK;
    var mb, nb, pb := nmb * CBM, nnb * CBN, npb * CBK;
    ghost var cut, s := Cut(op, m, n, p, nmb, nnb, npb), c[..];
    CutOk(op, m, n, p, c.Length);
    var a1, b1 := PackOperands(mb, nb, pb, nnb, npb, a, oa, lda, b, ob, ldb, cut, c.Length);
    var c1 := PackNew(Tiling(nnb, CBM, CBN), nmb, mb, m, nb, n, c, oc, ldc);
    ghost var s1 := c1[..];
    MultiplyBlocks(nmb, nnb, npb, m, n, p, a, oa, lda, b, ob, ldb, c, oc, ldc, a1, b1, c1, cut);
    ghost var r := c[..];
    Unpack(mb, nb, nnb, c1, c, oc, ldc, cut);
    cut.WholeProduct(s, r, c[..], s1, c1[..]);
  }

  /** mm: the whole product is added to c, whichever way is taken. */
  method Mm(m: nat, n: nat, p: nat, a: array<real>, oa: nat, lda: nat, b: array<real>, ob: nat, ldb: nat,
            c: array<real>, oc: nat, ldc: nat, ghost op: Op)
    requires op == Op(a[..], oa, lda, b[..], ob, ldb, oc, ldc) && c != a && c != b && op.Fits(m, n, p, c.Length)
    modifies c
    ensures op.Gained(old(c[..]), c[..], 0, m, 0, n, 0, p)
  {
    if m <= 2 * CBM && n <= 2 * CBN && p <= 2 * CBK {
      MmRb(m, n, p, a, oa, lda, b, ob, ldb, c, oc, ldc, op);
    } else {
      MmCb(m, n, p, a, oa, lda, b, ob, ldb, c, oc, ldc, op);
    }
  }
}
