/** mm.c and rb.h: cache- and register-blocked matrix multiply.  Pointers are an array
    and a position in it. */
module BlockedMultiply {
  import opened Powers
  import opened MatrixWindow
  import opened PackedTiles

  const RBM := 4
  const RBN := 5
  const RBK := 6
  const CBM := 24
  const CBN := 25
  const CBK := 24

  function Fma(x: real, y: real, z: real): real { x * y + z }

  /** fma(a[k], b[k * ldb], s), from row and column pointers. */
  method Multiply(p: nat, a: array<real>, ra: nat, b: array<real>, cb: nat, ldb: nat, k: nat, s: real, ghost op: Op,
                  ghost i: nat, ghost j: nat)
    returns (r: real)
    requires op.a == a[..] && op.b == b[..] && op.ldb == ldb && ra == op.oa + i * op.lda && cb == op.ob + j
    requires k < p && ra + p <= a.Length && cb + (p - 1) * ldb < b.Length
    ensures r == s + op.Term(i, j, k)
    ensures op.Sum(i, j, 0, k + 1) == op.Sum(i, j, 0, k) + op.Term(i, j, k)
  {
    op.SumNext(i, j, k);
    ProductMonotone(k, p - 1, ldb);
    r := Fma(a[ra + k], b[cb + k * ldb], s);
  }

  /** One element of mm_naive: four partial sums over k, and the rest of the depth. */
  method NaiveElement(p: nat, a: array<real>, ra: nat, b: array<real>, cb: nat, ldb: nat, c0: real, ghost op: Op,
                      ghost i: nat, ghost j: nat)
    returns (r: real)
    requires op.a == a[..] && op.b == b[..] && op.ldb == ldb && ra == op.oa + i * op.lda && cb == op.ob + j
    requires p > 0 ==> ra + p <= a.Length && cb + (p - 1) * ldb < b.Length
    ensures r == c0 + op.Sum(i, j, 0, p)
  {
    hide Op.Term, Op.Sum;
    ghost var q, t := p / 4, 0;
    Fours(p);
    op.NoSum(i, j);
    var s0, s1, s2, s3 := c0, 0.0, 0.0, 0.0;
    var k := 0;
    while k < p / 4 * 4
      invariant k == 4 * t && 0 <= t <= q
      invariant s0 + s1 + s2 + s3 == c0 + op.Sum(i, j, 0, k)
      decreases q - t
    {
      s0 := Multiply(p, a, ra, b, cb, ldb, k + 0, s0, op, i, j);
      s1 := Multiply(p, a, ra, b, cb, ldb, k + 1, s1, op, i, j);
      s2 := Multiply(p, a, ra, b, cb, ldb, k + 2, s2, op, i, j);
      s3 := Multiply(p, a, ra, b, cb, ldb, k + 3, s3, op, i, j);
      k := k + 4;
      t := t + 1;
    }
    while k < p
      invariant 0 <= k <= p
      invariant s0 + s1 + s2 + s3 == c0 + op.Sum(i, j, 0, k)
    {
      s0 := Multiply(p, a, ra, b, cb, ldb, k, s0, op, i, j);
      k := k + 1;
    }
    r := (s0 + s1) + (s2 + s3);
  }

  lemma Fours(p: nat)
    ensures p / 4 * 4 == 4 * (p / 4) <= p
  {
  }

  /** mm_naive. */
  method MmNaive(m: nat, n: nat, p: nat, a: array<real>, oa: nat, lda: nat, b: array<real>, ob: nat, ldb: nat,
                 c: array<real>, oc: nat, ldc: nat, ghost op: Op)
    requires op == Op(a[..], oa, lda, b[..], ob, ldb, oc, ldc) && c != a && c != b && op.Fits(m, n, p, c.Length)
    modifies c
    ensures op.Gained(old(c[..]), c[..], 0, m, 0, n, 0, p)
  {
    ghost var c0 := c[..];
    op.PartlyStart(c0, 1, n, 0, p);
    var i := 0;
    while i < m
      invariant 0 <= i <= m && op.Partly(c0, c[..], i, 1, 0, n, 0, p)
    {
      var j := 0;
      while j < n
        invariant 0 <= j <= n && op.Partly(c0, c[..], i, 1, j, n, 0, p)
      {
        op.InBounds(m, n, p, c.Length, i, j, if p > 0 then p - 1 else 0);
        var x := oc + i * ldc + j;
        var r := NaiveElement(p, a, oa + i * lda, b, ob + j, ldb, c[x], op, i, j);
        ghost var t := c[..];
        c[x] := r;
        op.OneElement(t, i, j, 0, p);
        op.PartlyNext(c0, t, c[..], i, 1, j, 1, n, 0, p);
        j := j + 1;
      }
      op.PartlyRow(c0, c[..], i, 1, 1, n, 0, p);
      i := i + 1;
    }
    op.PartlyDone(c0, c[..], m, 1, n, 0, p);
  }

  // ---- the register kernel

  /** Where c's element at row r and column s is. */
  function Slot(op: Op, r: int, s: int): int { op.oc + r * op.ldc + s }

  lemma SlotInside(op: Op, p: nat, length: nat, r: nat, s: nat)
    requires op.Fits(RBM, RBN, p, length) && r < RBM && s < RBN
    ensures 0 <= Slot(op, r, s) == op.oc + r * op.ldc + s < length
  {
    op.InBounds(RBM, RBN, p, length, r, s, 0);
  }

  /** The twenty accumulators of kloop hold the block of c with the products up to depth k. */
  ghost predicate Accumulated(acc: array2<real>, c: seq<real>, op: Op, k: int)
    reads acc
  {
    && acc.Length0 == RBM && acc.Length1 == RBN
    && forall r, s | 0 <= r < RBM && 0 <= s < RBN :: acc[r, s] == At(c, Slot(op, r, s)) + op.Sum(r, s, 0, k)
  }

  /** The accumulators loaded from c. */
  method LoadBlock(c: array<real>, oc: nat, ldc: nat, ghost op: Op, ghost p: nat) returns (acc: array2<real>)
    requires op.oc == oc && op.ldc == ldc && op.Fits(RBM, RBN, p, c.Length)
    ensures fresh(acc) && Accumulated(acc, c[..], op, 0)
  {
    hide Slot, Op.Fits;
    acc := new real[RBM, RBN];
    for r := 0 to RBM
      invariant forall r', s | 0 <= r' < r && 0 <= s < RBN :: acc[r', s] == At(c[..], Slot(op, r', s))
    {
      for s := 0 to RBN
        invariant forall r', s' | 0 <= r' < r && 0 <= s' < RBN :: acc[r', s'] == At(c[..], Slot(op, r', s'))
        invariant forall s' | 0 <= s' < s :: acc[r, s'] == At(c[..], Slot(op, r, s'))
      {
        SlotInside(op, p, c.Length, r, s);
        acc[r, s] := c[oc + r * ldc + s];
      }
    }
  }

  /** One rank-one update of the block: column k of four rows of a, five elements of row k of b. */
  method RankOne(acc: array2<real>, p: nat, a: array<real>, oa: nat, lda: nat, b: array<real>, ob: nat, ldb: nat,
                 k: nat, ghost c: seq<real>, ghost op: Op)
    requires op.a == a[..] && op.oa == oa && op.lda == lda && op.b == b[..] && op.ob == ob && op.ldb == ldb
    requires op.Fits(RBM, RBN, p, |c|) && k < p && Accumulated(acc, c, op, k)
    modifies acc
    ensures Accumulated(acc, c, op, k + 1)
  {
    hide Op.Sum, Op.Term, Slot, At;
    for r := 0 to RBM
      invariant forall r', s | 0 <= r' < RBM && 0 <= s < RBN ::
        acc[r', s] == At(c, Slot(op, r', s)) + op.Sum(r', s, 0, if r' < r then k + 1 else k)
    {
      for s := 0 to RBN
        invariant forall r', s' | 0 <= r' < RBM && 0 <= s' < RBN ::
          acc[r', s'] == At(c, Slot(op, r', s')) + op.Sum(r', s', 0, if r' < r || (r' == r && s' < s) then k + 1 else k)
      {
        op.InBounds(RBM, RBN, p, |c|, r, s, p - 1);
        acc[r, s] := Multiply(p, a, oa + r * lda, b, ob + s, ldb, k, acc[r, s], op, r, s);
      }
    }
  }

  /** The accumulators stored to c. */
  method StoreBlock(acc: array2<real>, c: array<real>, oc: nat, ldc: nat, ghost op: Op, ghost p: nat)
    requires op.oc == oc && op.ldc == ldc && op.Fits(RBM, RBN, p, c.Length) && Accumulated(acc, c[..], op, p)
    modifies c
    ensures op.Gained(old(c[..]), c[..], 0, RBM, 0, RBN, 0, p)
  {
    hide Op.Sum;
    ghost var c0 := c[..];
    op.PartlyStart(c0, 1, RBN, 0, p);
    for r := 0 to RBM
      invariant op.Partly(c0, c[..], r, 1, 0, RBN, 0, p) && Accumulated(acc, c0, op, p)
    {
      for s := 0 to RBN
        invariant op.Partly(c0, c[..], r, 1, s, RBN, 0, p) && Accumulated(acc, c0, op, p)
      {
        op.InBounds(RBM, RBN, p, c.Length, r, s, 0);
        op.RowCol(r, s);
        ghost var t := c[..];
        var x := oc + r * ldc + s;
        c[x] := acc[r, s];
        assert c[..] == t[x := t[x] + op.Sum(r, s, 0, p)];
        op.OneElement(t, r, s, 0, p);
        op.PartlyNext(c0, t, c[..], r, 1, s, 1, RBN, 0, p);
      }
      op.PartlyRow(c0, c[..], r, 1, 1, RBN, 0, p);
    }
    op.PartlyDone(c0, c[..], RBM, 1, RBN, 0, p);
  }

  /** kloop: a 4 by 5 block of c in accumulators, the depth unrolled by six with a tail. */
  method Kloop(p: nat, a: array<real>, oa: nat, lda: nat, b: array<real>, ob: nat, ldb: nat, c: array<real>, oc: nat,
               ldc: nat, ghost op: Op)
    requires op == Op(a[..], oa, lda, b[..], ob, ldb, oc, ldc) && c != a && c != b && op.Fits(RBM, RBN, p, c.Length)
    modifies c
    ensures op.Gained(old(c[..]), c[..], 0, RBM, 0, RBN, 0, p)
  {
    hide Accumulated, Op.Fits;
    ghost var c0 := c[..];
    var acc := LoadBlock(c, oc, ldc, op, p);
    var k := 0;
    while k < p / RBK * RBK
      invariant 0 <= k <= p / RBK * RBK && k % RBK == 0 && Accumulated(acc, c0, op, k) && c[..] == c0
    {
      RankOne(acc, p, a, oa, lda, b, ob, ldb, k, c0, op);
      RankOne(acc, p, a, oa, lda, b, ob, ldb, k + 1, c0, op);
      RankOne(acc, p, a, oa, lda, b, ob, ldb, k + 2, c0, op);
      RankOne(acc, p, a, oa, lda, b, ob, ldb, k + 3, c0, op);
      RankOne(acc, p, a, oa, lda, b, ob, ldb, k + 4, c0, op);
      RankOne(acc, p, a, oa, lda, b, ob, ldb, k + 5, c0, op);
      k := k + RBK;
    }
    while k < p
      invariant 0 <= k <= p && Accumulated(acc, c0, op, k) && c[..] == c0
    {
      RankOne(acc, p, a, oa, lda, b, ob, ldb, k, c0, op);
      k := k + 1;
    }
    StoreBlock(acc, c, oc, ldc, op, p);
  }

  // ---- register blocking

  /** kloop on the block at row i and column j of a larger product. */
  method KloopAt(i: nat, j: nat, m: nat, n: nat, p: nat, a: array<real>, oa: nat, lda: nat, b: array<real>, ob: nat,
                 ldb: nat, c: array<real>, oc: nat, ldc: nat, ghost op: Op)
    requires op == Op(a[..], oa, lda, b[..], ob, ldb, oc, ldc) && c != a && c != b && op.Fits(m, n, p, c.Length)
    requires i + RBM <= m && j + RBN <= n
    modifies c
    ensures op.Gained(old(c[..]), c[..], i, i + RBM, j, j + RBN, 0, p)
  {
    op.SubFits(m, n, p, c.Length, i, j, 0, RBM, RBN, p);
    Kloop(p, a, oa + i * lda, lda, b, ob + j, ldb, c, oc + i * ldc + j, ldc, op.Sub(i, j, 0));
    op.SubGained(i, j, 0, RBM, RBN, p, old(c[..]), c[..]);
  }

  /** mm_naive on the m' by n' window at row i and column j of a larger product. */
  method NaiveAt(i: nat, j: nat, m': nat, n': nat, m: nat, n: nat, p: nat, a: array<real>, oa: nat, lda: nat,
                 b: array<real>, ob: nat, ldb: nat, c: array<real>, oc: nat, ldc: nat, ghost op: Op)
    requires op == Op(a[..], oa, lda, b[..], ob, ldb, oc, ldc) && c != a && c != b && op.Fits(m, n, p, c.Length)
    requires i + m' <= m && j + n' <= n
    modifies c
    ensures op.Gained(old(c[..]), c[..], i, i + m', j, j + n', 0, p)
  {
    op.SubFits(m, n, p, c.Length, i, j, 0, m', n', p);
    MmNaive(m', n', p, a, oa + i * lda, lda, b, ob + j, ldb, c, oc + i * ldc + j, ldc, op.Sub(i, j, 0));
    op.SubGained(i, j, 0, m', n', p, old(c[..]), c[..]);
  }

  /** mm_rb: 4 by 5 blocks, with plain loops on the right and bottom fringes. */
  method MmRb(m: nat, n: nat, p: nat, a: array<real>, oa: nat, lda: nat, b: array<real>, ob: nat, ldb: nat,
              c: array<real>, oc: nat, ldc: nat, ghost op: Op)
    requires op == Op(a[..], oa, lda, b[..], ob, ldb, oc, ldc) && c != a && c != b && op.Fits(m, n, p, c.Length)
    modifies c
    ensures op.Gained(old(c[..]), c[..], 0, m, 0, n, 0, p)
  {
    hide Op.Fits, Op.Gained, Op.Partly;
    var mb, nb := m / RBM * RBM, n / RBN * RBN;
    ghost var c0 := c[..];
    op.PartlyStart(c0, RBM, n, 0, p);
    var i := 0;
    while i < mb
      invariant 0 <= i <= mb && i % RBM == 0 && op.Partly(c0, c[..], i, RBM, 0, n, 0, p)
    {
      var j := 0;
      while j < nb
        invariant 0 <= j <= nb && j % RBN == 0 && op.Partly(c0, c[..], i, RBM, j, n, 0, p)
      {
        ghost var t := c[..];
        KloopAt(i, j, m, n, p, a, oa, lda, b, ob, ldb, c, oc, ldc, op);
        op.PartlyNext(c0, t, c[..], i, RBM, j, RBN, n, 0, p);
        j := j + RBN;
      }
      ghost var t := c[..];
      NaiveAt(i, nb, RBM, n - nb, m, n, p, a, oa, lda, b, ob, ldb, c, oc, ldc, op);
      op.PartlyNext(c0, t, c[..], i, RBM, nb, n - nb, n, 0, p);
      op.PartlyRow(c0, c[..], i, RBM, RBM, n, 0, p);
      i := i + RBM;
    }
    ghost var t := c[..];
    op.PartlyDone(c0, t, mb, RBM, n, 0, p);
    NaiveAt(mb, 0, m - mb, n, m, n, p, a, oa, lda, b, ob, ldb, c, oc, ldc, op);
    op.StackRows(c0, t, c[..], mb, m, 0, n, 0, p);
  }

  // ---- repacking

  /** The m by p window v of t holds the window of src at off0 with stride lda0: rows below
      i of it, and row i up to column j.  The rest of t is as in s. */
  ghost predicate Copied(v: Op, s: seq<real>, t: seq<real>, src: seq<real>, off0: int, lda0: int, i: int, j: int,
                         p: int) {
    |s| == |t| && forall x | 0 <= x < |s| ::
      t[x] == if v.In(x, 0, i, 0, p) || v.In(x, i, i + 1, 0, j) then At(src, off0 + v.Row(x) * lda0 + v.Col(x))
        else s[x]
  }

  lemma CopiedNext(v: Op, s: seq<real>, t: seq<real>, src: seq<real>, off0: int, lda0: int, i: nat, j: nat, p: nat)
    requires Copied(v, s, t, src, off0, lda0, i, j, p) && j < v.ldc && v.oc + i * v.ldc + j < |t|
    ensures Copied(v, s, t[v.oc + i * v.ldc + j := At(src, off0 + i * lda0 + j)], src, off0, lda0, i, j + 1, p)
  {
    hide Op.Row, Op.Col;
    var x0 := v.oc + i * v.ldc + j;
    v.RowCol(i, j);
    forall x {:trigger s[x]} | 0 <= x < |s| && v.In(x, i, i + 1, j, j + 1) ensures x == x0 { v.RowColBack(x); }
  }

  method Put(dst: array<real>, x: nat, value: real, ghost v: Op, ghost s: seq<real>, ghost src: seq<real>,
             ghost off0: nat, ghost lda0: nat, ghost i: nat, ghost j: nat, ghost m: nat, ghost p: nat)
    requires v.Fits(m, p, 0, dst.Length) && i < m && j < p && x == v.oc + i * v.ldc + j
    requires value == At(src, off0 + i * lda0 + j) && Copied(v, s, dst[..], src, off0, lda0, i, j, p)
    modifies dst
    ensures Copied(v, s, dst[..], src, off0, lda0, i, j + 1, p)
  {
    v.InBounds(m, p, 0, dst.Length, i, j, 0);
    CopiedNext(v, s, dst[..], src, off0, lda0, i, j, p);
    ghost var t := dst[..];
    dst[x] := value;
    assert dst[..] == t[x := value];
  }

  /** Eight reads, then eight writes. */
  method PutEight(dst: array<real>, x: nat, src: array<real>, z: nat, ghost v: Op, ghost s: seq<real>, ghost off0: nat,
                  ghost lda0: nat, ghost i: nat, ghost j: nat, ghost m: nat, ghost p: nat)
    requires dst != src && v.Fits(m, p, 0, dst.Length) && i < m && j + 8 <= p && x == v.oc + i * v.ldc + j
    requires z == off0 + i * lda0 + j && z + 8 <= src.Length && Copied(v, s, dst[..], src[..], off0, lda0, i, j, p)
    modifies dst
    ensures Copied(v, s, dst[..], src[..], off0, lda0, i, j + 8, p)
  {
    hide Copied, Op.Fits;
    var t0, t1, t2, t3 := src[z], src[z + 1], src[z + 2], src[z + 3];
    var t4, t5, t6, t7 := src[z + 4], src[z + 5], src[z + 6], src[z + 7];
    Put(dst, x + 0, t0, v, s, src[..], off0, lda0, i, j + 0, m, p);
    Put(dst, x + 1, t1, v, s, src[..], off0, lda0, i, j + 1, m, p);
    Put(dst, x + 2, t2, v, s, src[..], off0, lda0, i, j + 2, m, p);
    Put(dst, x + 3, t3, v, s, src[..], off0, lda0, i, j + 3, m, p);
    Put(dst, x + 4, t4, v, s, src[..], off0, lda0, i, j + 4, m, p);
    Put(dst, x + 5, t5, v, s, src[..], off0, lda0, i, j + 5, m, p);
    Put(dst, x + 6, t6, v, s, src[..], off0, lda0, i, j + 6, m, p);
    Put(dst, x + 7, t7, v, s, src[..], off0, lda0, i, j + 7, m, p);
  }

  /** repack: copy an m by p window. */
  method Repack(dst: array<real>, off: nat, lda: nat, src: array<real>, off0: nat, lda0: nat, m: nat, p: nat,
                ghost v: Op)
    requires dst != src && v == Op([], 0, 0, [], 0, 0, off, lda) && v.Fits(m, p, 0, dst.Length)
    requires m > 0 && p > 0 ==> off0 + (m - 1) * lda0 + p <= src.Length
    modifies dst
    ensures Copied(v, old(dst[..]), dst[..], src[..], off0, lda0, m, 0, p)
  {
    hide Copied, Op.Fits;
    ghost var s := dst[..];
    NothingCopied(v, s, src[..], off0, lda0, p);
    var i := 0;
    while i < m
      invariant 0 <= i <= m && Copied(v, s, dst[..], src[..], off0, lda0, i, 0, p)
    {
      ProductMonotone(i, m - 1, lda0);
      RepackRow(dst, off + i * lda, src, off0 + i * lda0, p, v, s, off0, lda0, i, m);
      i := i + 1;
    }
  }

  /** One row, eight elements at a time, then the rest. */
  method RepackRow(dst: array<real>, x: nat, src: array<real>, z: nat, p: nat, ghost v: Op, ghost s: seq<real>,
                   ghost off0: nat, ghost lda0: nat, ghost i: nat, ghost m: nat)
    requires dst != src && v.Fits(m, p, 0, dst.Length) && i < m && x == v.oc + i * v.ldc
    requires z == off0 + i * lda0 && (p > 0 ==> z + p <= src.Length) &&
             Copied(v, s, dst[..], src[..], off0, lda0, i, 0, p)
    modifies dst
    ensures Copied(v, s, dst[..], src[..], off0, lda0, i + 1, 0, p)
  {
    hide Copied, Op.Fits;
    var j := 0;
    while j < p / 8 * 8
      invariant 0 <= j <= p / 8 * 8 && j % 8 == 0 && Copied(v, s, dst[..], src[..], off0, lda0, i, j, p)
    {
      PutEight(dst, x + j, src, z + j, v, s, off0, lda0, i, j, m, p);
      j := j + 8;
    }
    while j < p
      invariant 0 <= j <= p && Copied(v, s, dst[..], src[..], off0, lda0, i, j, p)
    {
      Put(dst, x + j, src[z + j], v, s, src[..], off0, lda0, i, j, m, p);
      j := j + 1;
    }
    RowCopied(v, s, dst[..], src[..], off0, lda0, i, p);
  }

  lemma NothingCopied(v: Op, s: seq<real>, src: seq<real>, off0: int, lda0: int, p: nat)
    ensures Copied(v, s, s, src, off0, lda0, 0, 0, p)
  {
  }

  lemma RowCopied(v: Op, s: seq<real>, t: seq<real>, src: seq<real>, off0: int, lda0: int, i: nat, p: nat)
    requires Copied(v, s, t, src, off0, lda0, i, p, p)
    ensures Copied(v, s, t, src, off0, lda0, i + 1, 0, p)
  {
    hide Op.Row, Op.Col;
  }

  // ---- packing a whole matrix into tiles

  /** The first `tiles` tiles of dst hold their part of the matrix at off with stride ld. */
  ghost predicate PackedFrom(tl: Tiling, dst: seq<real>, src: seq<real>, off: int, ld: int, tiles: int)
    requires tl.Ok()
  {
    forall y | 0 <= y < |dst| && tl.Tile(y) < tiles :: dst[y] == At(src, off + tl.Row(y) * ld + tl.Col(y))
  }

  lemma TilePacked(tl: Tiling, i: nat, j: nat, s: seq<real>, t: seq<real>, src: seq<real>, off: nat, ld: nat)
    requires tl.Ok() && j < tl.nt && PackedFrom(tl, s, src, off, ld, tl.nt * i + j)
    requires Copied(tl.Window(tl.nt * i + j), s, t, src, off + i * tl.h * ld + j * tl.w, ld, tl.h, 0, tl.w)
    ensures PackedFrom(tl, t, src, off, ld, tl.nt * i + j + 1)
  {
    var k := tl.nt * i + j;
    forall y | 0 <= y < |t| && tl.Tile(y) < k + 1 ensures t[y] == At(src, off + tl.Row(y) * ld + tl.Col(y)) {
      tl.InTile(k, y);
      if tl.Tile(y) == k {
        tl.Placed(i, j, y);
        SameSource(off, i * tl.h, ld, j * tl.w, tl.InnerRow(y), tl.InnerCol(y));
      }
      hide At, Tiling.Size, Tiling.Tile, Tiling.Row, Tiling.Col, Tiling.InnerRow, Tiling.InnerCol, Op.Row, Op.Col;
    }
  }

  lemma SameSource(off: int, r: int, ld: int, q: int, u: int, v: int)
    ensures off + r * ld + q + u * ld + v == off + (r + u) * ld + (q + v)
  {
    assert (r + u) * ld == r * ld + u * ld;
  }

  /** repack on one tile, with its place found from i and j as the loops do. */
  method PackTile(tl: Tiling, nm: nat, i: nat, j: nat, ghost ti: nat, ghost tj: nat, dst: array<real>,
                  src: array<real>, off: nat, ld: nat)
    requires tl.Ok() && dst != src && dst.Length == nm * tl.nt * tl.Size() && i == ti * tl.h && j == tj * tl.w &&
             ti < nm && tj < tl.nt
    requires off + (nm * tl.h - 1) * ld + tl.nt * tl.w <= src.Length
    requires PackedFrom(tl, dst[..], src[..], off, ld, tl.nt * ti + tj)
    modifies dst
    ensures PackedFrom(tl, dst[..], src[..], off, ld, tl.nt * ti + tj + 1)
  {
    ghost var s, k := dst[..], tl.nt * ti + tj;
    DivModUnique(i, tl.h, ti, 0);
    DivModUnique(j, tl.w, tj, 0);
    var t := tl.nt * (i / tl.h) + j / tl.w;
    assert t == k;
    TileBounds(tl, nm, ti, tj, dst.Length, src.Length, off, ld);
    Repack(dst, t * (tl.h * tl.w), tl.w, src, off + i * ld + j, ld, tl.h, tl.w, tl.Window(k));
    TilePacked(tl, ti, tj, s, dst[..], src[..], off, ld);
  }

  lemma TileBounds(tl: Tiling, nm: nat, ti: nat, tj: nat, packed: nat, length: nat, off: nat, ld: nat)
    requires tl.Ok() && packed == nm * tl.nt * tl.Size() && ti < nm && tj < tl.nt
    requires off + (nm * tl.h - 1) * ld + tl.nt * tl.w <= length
    ensures tl.Window(tl.nt * ti + tj).Fits(tl.h, tl.w, 0, packed)
    ensures off + ti * tl.h * ld + tj * tl.w + (tl.h - 1) * ld + tl.w <= length
  {
    TargetBounds(tl, nm, ti, tj);
    SourceRows(tl.h, nm, ti, ld);
    ProductMonotone(tj + 1, tl.nt, tl.w);
    assert (tj + 1) * tl.w == tj * tl.w + tl.w;
  }

  lemma TargetBounds(tl: Tiling, nm: nat, ti: nat, tj: nat)
    requires tl.Ok() && ti < nm && tj < tl.nt
    ensures (tl.nt * ti + tj) * tl.Size() + (tl.h - 1) * tl.w + tl.w <= nm * tl.nt * tl.Size()
  {
    var t, z := tl.nt * ti + tj, tl.Size();
    tl.TileFits(nm, ti, tj);
    assert (t + 1) * z == t * z + z;
    assert z == (tl.h - 1) * tl.w + tl.w;
  }

  lemma SourceRows(h: nat, nm: nat, ti: nat, ld: nat)
    requires h > 0 && ti < nm
    ensures ti * h * ld + (h - 1) * ld <= (nm * h - 1) * ld
  {
    ProductMonotone(ti + 1, nm, h);
    assert (ti + 1) * h == ti * h + h;
    ProductMonotone(ti * h + (h - 1), nm * h - 1, ld);
  }

  /** The loops around repack: nm rows of tiles of the mb by nb matrix at off, packed into dst. */
  method PackTiles(tl: Tiling, nm: nat, mb: nat, nb: nat, dst: array<real>, src: array<real>, off: nat, ld: nat)
    requires tl.h > 0 && tl.w > 0 && mb == nm * tl.h && nb == tl.nt * tl.w
    requires dst != src && dst.Length == nm * tl.nt * tl.Size()
    requires mb > 0 && nb > 0 ==> off + (mb - 1) * ld + nb <= src.Length
    modifies dst
    ensures tl.nt > 0 ==> PackedFrom(tl, dst[..], src[..], off, ld, nm * tl.nt)
  {
    NothingPacked(tl, dst[..], src[..], off, ld);
    hide PackedFrom, Tiling.Size;
    ghost var ti := 0;
    var i := 0;
    while i < mb
      invariant 0 <= ti <= nm && i == ti * tl.h
      invariant tl.nt > 0 ==> PackedFrom(tl, dst[..], src[..], off, ld, tl.nt * ti)
      decreases nm - ti
    {
      ProductCancel(ti, nm, tl.h);
      PackRow(tl, nm, mb, nb, i, ti, dst, src, off, ld);
      i := i + tl.h;
      ti := ti + 1;
    }
    ProductCancel(ti, nm, tl.h);
  }

  lemma NothingPacked(tl: Tiling, dst: seq<real>, src: seq<real>, off: int, ld: int)
    ensures tl.Ok() ==> PackedFrom(tl, dst, src, off, ld, 0)
  {
  }

  /** One row of tiles. */
  method PackRow(tl: Tiling, nm: nat, mb: nat, nb: nat, i: nat, ghost ti: nat, dst: array<real>, src: array<real>,
                 off: nat, ld: nat)
    requires tl.h > 0 && tl.w > 0 && mb == nm * tl.h && nb == tl.nt * tl.w && i == ti * tl.h && ti < nm
    requires dst != src && dst.Length == nm * tl.nt * tl.Size()
    requires mb > 0 && nb > 0 ==> off + (mb - 1) * ld + nb <= src.Length
    requires tl.nt > 0 ==> PackedFrom(tl, dst[..], src[..], off, ld, tl.nt * ti)
    modifies dst
    ensures tl.nt > 0 ==> PackedFrom(tl, dst[..], src[..], off, ld, tl.nt * (ti + 1))
  {
    hide PackedFrom, Tiling.Size;
    ghost var tj := 0;
    var j := 0;
    while j < nb
      invariant 0 <= tj <= tl.nt && j == tj * tl.w
      invariant tl.nt > 0 ==> PackedFrom(tl, dst[..], src[..], off, ld, tl.nt * ti + tj)
      decreases tl.nt - tj
    {
      ProductCancel(tj, tl.nt, tl.w);
      ProductMonotone(1, nm, tl.h);
      ProductMonotone(1, tl.nt, tl.w);
      PackTile(tl, nm, i, j, ti, tj, dst, src, off, ld);
      j := j + tl.w;
      tj := tj + 1;
    }
    ProductCancel(tj, tl.nt, tl.w);
  }
}
