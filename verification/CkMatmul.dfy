/** ck_matmul.c: bands of 16 rows dealt out in turn; in each band the block column runs
    from the core's own start round modulo lda until it is back. */
module CkMatmul {
  import opened Powers
  import opened MatrixWindow
  import opened Interleaving
  import opened SharedCore
  import opened BarrierCores
  import opened BlockKernel
  import opened RowOwners

  const BSIZE := 16

  predicate Divides(d: nat, x: nat)
    requires d > 0
  {
    x % d == 0
  }

  /** Whether the round of block columns is a partition of the columns. */
  predicate Even(n: nat) { Divides(BSIZE, n) || n <= BSIZE }

  /** s with the product once too often in the columns that are visited twice: none if the
      round is even, all but the first eight if not. */
  function Doubled(op: Op, s: seq<real>, n: nat): seq<real> {
    seq(|s|, (x: nat) requires x < |s| => s[x] + if !Even(n) && op.In(x, 0, n, 8, n) then op.Gain(x, 0, n) else 0.0)
  }

  /** What is added twice, element by element: from the ninth column on, if lda is above 16 and no
      multiple of it. */
  lemma DoubledAt(g: Grid, m0: seq<real>, s: seq<real>, r: nat, c: nat) returns (sums: seq<real>)
    requires r < g.n && c < g.n && 0 <= g.oc + r * g.n + c < |s|
    ensures |sums| == g.n + 1 && sums[0] == 0.0
    ensures forall k | 0 <= k < g.n ::
              sums[k + 1] == sums[k] + At(m0, g.oa + r * g.n + k) * At(m0, g.ob + k * g.n + c)
    ensures |Doubled(WholeOp(g, m0), s, g.n)| == |s|
    ensures Doubled(WholeOp(g, m0), s, g.n)[g.oc + r * g.n + c] ==
            s[g.oc + r * g.n + c] + if g.n > 16 && g.n % 16 != 0 && c >= 8 then sums[g.n] else 0.0
  {
    hide Op.Sum, Op.Row, Op.Col, WholeOp, At;
    sums := WholeSteps(g, m0, r, c);
    WholePlace(g, m0, |s|, g.n, r, c, g.oc + r * g.n + c);
  }

  /** One block: the rows of the band from jj and the columns from ii, 4 by 2 at a time. */
  method CkBlock(core: Core, g: Grid, jj: nat, ii: nat, ghost op: Op)
    requires core.Valid() && Divides(8, g.n) && Divides(BSIZE, jj) && jj < g.n && Divides(8, ii) && ii < g.n
    requires Ready(core.plan, core.id, core.epoch, g, op, jj, Min(jj + BSIZE, g.n), ii, Min(ii + BSIZE, g.n))
    modifies core`trace, core`mem
    ensures core.Valid() && |core.mem| == old(|core.mem|)
    ensures Gains(op, old(core.mem), old(core.mem), core.mem,
                  Rect(op, |core.mem|, jj, Min(jj + BSIZE, g.n), ii, Min(ii + BSIZE, g.n)), 0, g.n)
  {
    hide Core.Valid, Ready, Gains, Rect, Divides, Min;
    var lda := g.n;
    ghost var s, size, c1 := core.mem, |core.mem|, Min(ii + BSIZE, lda);
    NoRect(op, s, s, jj, jj, ii, c1, 0, lda);
    EvenMore(jj);
    FourMore(jj, jj, lda);
    var j := jj;
    while j < lda && j < jj + BSIZE
      invariant 0 <= j && jj <= j <= Min(jj + BSIZE, lda) && Divides(4, j) && core.Valid() && |core.mem| == size
      invariant Gains(op, s, s, core.mem, Rect(op, size, jj, j, ii, c1), 0, lda)
    {
      ghost var t := core.mem;
      FourMore(j, jj, lda);
      ReadySmaller(core.plan, core.id, core.epoch, g, op, jj, Min(jj + BSIZE, lda), ii, c1, j, j + 4, ii, c1);
      CkRow(core, g, j, ii, op);
      RowsAfter(op, s, t, s, t, core.mem, jj, j, j + 4, ii, c1, 0, lda);
      j := j + 4;
    }
    InLoop(j, jj, lda);
  }

  method CkRow(core: Core, g: Grid, j: nat, ii: nat, ghost op: Op)
    requires core.Valid() && Divides(8, g.n) && Divides(8, ii) && ii < g.n
    requires Ready(core.plan, core.id, core.epoch, g, op, j, j + 4, ii, Min(ii + BSIZE, g.n))
    modifies core`trace, core`mem
    ensures core.Valid() && |core.mem| == old(|core.mem|)
    ensures Gains(op, old(core.mem), old(core.mem), core.mem, Rect(op, |core.mem|, j, j + 4, ii, Min(ii + BSIZE, g.n)),
                  0, g.n)
  {
    hide Core.Valid, Ready, Gains, Rect, Divides, Min;
    var lda := g.n;
    ghost var s, size := core.mem, |core.mem|;
    NoRect(op, s, s, j, j + 4, ii, ii, 0, lda);
    EvenMore(ii);
    TwoMore(ii, ii, lda);
    var i := ii;
    while i < lda && i < ii + BSIZE
      invariant 0 <= i && ii <= i <= Min(ii + BSIZE, lda) && Divides(2, i) && core.Valid() && |core.mem| == size
      invariant Gains(op, s, s, core.mem, Rect(op, size, j, j + 4, ii, i), 0, lda)
    {
      ghost var t := core.mem;
      TwoMore(i, ii, lda);
      ReadySmaller(core.plan, core.id, core.epoch, g, op, j, j + 4, ii, Min(ii + BSIZE, lda), j, j + 4, i, i + 2);
      Block(core, g, j, 4, i, 2, 0, lda, 8, false, false, op);
      ColsAfter(op, s, t, s, t, core.mem, j, j + 4, ii, i, i + 2, 0, lda);
      i := i + 2;
    }
    InLoop(i, ii, lda);
  }

  lemma TwoMore(i: nat, ii: nat, n: nat)
    requires Divides(8, n) && Divides(8, ii) && Divides(2, i) && i < n && i < ii + BSIZE
    ensures i + 2 <= Min(ii + BSIZE, n) && Divides(2, i + 2) && (n - 0) % 8 == 0
    ensures i == ii ==> ii <= Min(ii + BSIZE, n)
  {
    assert (n - 0) % 8 == 0;
    hide Divides;
    EvenMore(n);
    EvenMore(ii);
    Plus(2, ii, 8);
    NextMultiple(2, i, n);
    NextMultiple(2, i, ii + BSIZE);
  }

  lemma FourMore(j: nat, jj: nat, n: nat)
    requires Divides(8, n) && Divides(BSIZE, jj) && Divides(4, j) && j < n && j < jj + BSIZE
    ensures j + 4 <= Min(jj + BSIZE, n) && Divides(4, j + 4)
  {
    hide Divides;
    EvenMore(n);
    EvenMore(jj);
    Plus(4, jj, 4);
    NextMultiple(4, j, n);
    NextMultiple(4, j, jj + BSIZE);
  }

  lemma Times(d: nat, x: nat) returns (q: nat)
    requires d > 0 && Divides(d, x)
    ensures x == d * q
  {
    q := x / d;
  }

  lemma IsTimes(d: nat, x: nat, q: nat)
    requires d > 0 && x == d * q
    ensures Divides(d, x)
  {
    DivModUnique(x, d, q, 0);
  }

  lemma Plus(d: nat, x: nat, k: nat)
    requires d > 0 && Divides(d, x)
    ensures Divides(d, x + d * k)
  {
    hide Divides;
    var q := Times(d, x);
    assert x + d * k == d * (q + k);
    IsTimes(d, x + d * k, q + k);
  }

  /** The multiples of d are d apart. */
  lemma NextMultiple(d: nat, x: nat, y: nat)
    requires d > 0 && Divides(d, x) && Divides(d, y) && x < y
    ensures x + d <= y && Divides(d, x + d)
  {
    hide Divides;
    var p := Times(d, x);
    var q := Times(d, y);
    Plus(d, x, 1);
    ProductCancel(p, q, d);
    ProductMonotone(p + 1, q, d);
    assert (p + 1) * d == d * p + d;
  }

  lemma InLoop(i: nat, ii: nat, n: nat)
    ensures i == Min(ii + BSIZE, n) <==> i <= Min(ii + BSIZE, n) && !(i < n && i < ii + BSIZE)
  {
  }

  lemma EvenMore(x: nat)
    ensures Divides(8, x) ==> Divides(2, x) && Divides(4, x)
    ensures Divides(BSIZE, x) ==> Divides(4, x) && Divides(8, x)
  {
    hide Divides;
    if Divides(BSIZE, x) {
      var q := Times(BSIZE, x);
      IsTimes(4, x, 4 * q);
      IsTimes(8, x, 2 * q);
    }
    if Divides(8, x) {
      var q := Times(8, x);
      IsTimes(2, x, 4 * q);
      IsTimes(4, x, 2 * q);
    }
  }

  /** Where the round of block columns stands: `lap` counts how often it has gone past the
      right edge, and the columns gained are [start, n), then [first, n), then [0, start),
      where first is 8 if the edge is met in the middle of a block and the middle part is
      missing if not. */
  ghost predicate Round(op: Op, s: seq<real>, t1: seq<real>, t2: seq<real>, t: seq<real>, jj: nat, r1: nat, start: nat,
                        ii: nat, lap: nat, n: nat) {
    && |s| == |t1| == |t2| == |t|
    && match lap
       case 0 => ii >= start && Gains(op, s, s, t, Rect(op, |s|, jj, r1, start, ii), 0, n) && Divides(BSIZE, ii)
       case 1 => !Even(n) && Divides(BSIZE, ii + 8) && Gains(op, s, s, t1, Rect(op, |s|, jj, r1, start, n), 0, n) &&
         Gains(op, t1, t1, t, Rect(op, |s|, jj, r1, 8, ii), 0, n)
       case _ => ii <= start && Divides(BSIZE, ii) && Gains(op, s, s, t1, Rect(op, |s|, jj, r1, start, n), 0, n)
                 && Gains(op, t1, t1, t2, Again(op, |s|, jj, r1, n), 0, n) &&
                    Gains(op, t2, t2, t, Rect(op, |s|, jj, r1, 0, ii), 0, n)
  }

  /** The elements of a band that are visited twice. */
  function Again(op: Op, size: nat, jj: nat, r1: nat, n: nat): set<nat> {
    if Even(n) then {} else Rect(op, size, jj, r1, 8, n)
  }

  /** The lap after a block at ii. */
  function NextLap(lap: nat, ii: nat, n: nat): nat {
    if ii + BSIZE < n then lap else if Even(n) || lap == 1 then 2 else 1
  }

  lemma NextStart(start: nat, ii: nat, lap: nat, n: nat, ii': nat)
    requires Divides(8, n) && Divides(BSIZE, start) && start < n && ii < n && ii' == (BSIZE + ii) % n && lap <= 2
    requires if lap == 1 then !Even(n) && Divides(BSIZE, ii + 8)
               else Divides(BSIZE, ii) && (lap == 0 ==> ii >= start) && (lap == 2 ==> ii < start)
    ensures ii' < n && Divides(8, ii') && lap <= NextLap(lap, ii, n) <= 2 &&
            (NextLap(lap, ii, n) == lap ==> ii' == ii + BSIZE)
    ensures ii + BSIZE < n ==> ii' == ii + BSIZE && if lap == 1 then Divides(BSIZE, ii' + 8) else Divides(BSIZE, ii')
    ensures lap == 2 ==> ii + BSIZE <= start
    ensures ii + BSIZE >= n && NextLap(lap, ii, n) == 2 ==> ii' == 0 && lap != 2 && Divides(BSIZE, ii')
    ensures ii + BSIZE >= n && NextLap(lap, ii, n) == 1 ==> ii' == 8 && lap == 0 && Divides(BSIZE, ii' + 8)
  {
    assert ii' == Rem(BSIZE + ii, n);
    hide Quot, Rem, Divides, Even;
    IsTimes(BSIZE, 0, 0);
    IsTimes(BSIZE, 16, 1);
    IsTimes(8, 0, 0);
    IsTimes(8, 8, 1);
    NextEdge(start, ii, lap, n);
    if ii + BSIZE < n {
      QuotRemUnique(ii + BSIZE, n, 0, ii + BSIZE);
    } else if NextLap(lap, ii, n) == 1 {
      QuotRemUnique(ii + BSIZE, n, 1, 8);
    } else if n == 8 {
      QuotRemUnique(BSIZE, n, 2, 0);
    } else {
      QuotRemUnique(ii + BSIZE, n, 1, 0);
    }
  }

  /** Where blocks can be when they reach the edge. */
  lemma NextEdge(start: nat, ii: nat, lap: nat, n: nat)
    requires Divides(8, n) && Divides(BSIZE, start) && start < n && ii < n && lap <= 2
    requires if lap == 1 then !Even(n) && Divides(BSIZE, ii + 8)
               else Divides(BSIZE, ii) && (lap == 0 ==> ii >= start) && (lap == 2 ==> ii < start)
    ensures lap == 2 ==> ii + BSIZE <= start
    ensures Divides(8, ii + BSIZE) && if lap == 1 then Divides(BSIZE, ii + 24) else Divides(BSIZE, ii + 16)
    ensures ii + BSIZE >= n ==>
              lap != 2 && if NextLap(lap, ii, n) == 1 then lap == 0 && ii + BSIZE == n + 8 && n > 8
                else if n == 8 then ii == 0 else ii + BSIZE == n
  {
    hide Divides;
    if lap == 1 {
      Plus(BSIZE, ii + 8, 1);
      EvenMore(ii + 24);
      EvenMore(ii + 8);
      Plus(8, ii + 8, 1);
      NotEven(n);
      NextMultiple(BSIZE, ii + 8, n + 8);
    } else {
      Plus(BSIZE, ii, 1);
      EvenMore(ii + 16);
      EvenMore(ii);
      if lap == 2 { NextMultiple(BSIZE, ii, start); } else if ii + BSIZE >= n { FirstEdge(ii, n); }
    }
  }

  lemma FirstEdge(ii: nat, n: nat)
    requires Divides(8, n) && Divides(BSIZE, ii) && Divides(8, ii) && ii < n && ii + BSIZE >= n
    ensures if !Even(n) then ii + BSIZE == n + 8 && n > 8 else if n == 8 then ii == 0 else ii + BSIZE == n
  {
    hide Divides;
    NextMultiple(8, ii, n);
    if ii + 8 < n { NextMultiple(8, ii + 8, n); }
    if Divides(BSIZE, n) { NextMultiple(BSIZE, ii, n); }
    Plus(BSIZE, ii, 1);
    IsTimes(BSIZE, 0, 0);
    if ii > 0 { NextMultiple(BSIZE, 0, ii); }
  }

  lemma NotEven(n: nat)
    requires Divides(8, n) && !Divides(BSIZE, n)
    ensures Divides(BSIZE, n + 8)
  {
    hide Divides;
    var p := Times(8, n);
    if p == 2 * (p / 2) { IsTimes(BSIZE, n, p / 2); } else { IsTimes(BSIZE, n + 8, p / 2 + 1); }
  }

  /** A block gained moves the round on. */
  lemma RoundNext(op: Op, s: seq<real>, t1: seq<real>, t2: seq<real>, t: seq<real>, u: seq<real>, jj: nat, r1: nat,
                  start: nat, ii: nat, lap: nat, n: nat)
    returns (u1: seq<real>, u2: seq<real>)
    requires Divides(8, n) && Divides(BSIZE, start) && start < n && ii < n && lap <= 2
    requires Round(op, s, t1, t2, t, jj, r1, start, ii, lap, n) && (lap == 2 ==> ii < start)
    requires |u| == |t| && Gains(op, t, t, u, Rect(op, |t|, jj, r1, ii, Min(ii + BSIZE, n)), 0, n)
    ensures Round(op, s, u1, u2, u, jj, r1, start, (BSIZE + ii) % n, NextLap(lap, ii, n), n)
  {
    hide Gains, Rect;
    var ii', c1 := (BSIZE + ii) % n, Min(ii + BSIZE, n);
    NextStart(start, ii, lap, n, ii');
    u1, u2 := t1, t2;
    match lap
    case 0 =>
      ColsAfter(op, s, t, s, t, u, jj, r1, start, ii, c1, 0, n);
      if ii + BSIZE >= n {
        u1, u2 := u, u;
        NoRect(op, u, u, jj, r1, 8, 8, 0, n);
        NoRect(op, u, u, jj, r1, 0, 0, 0, n);
        GainsNothing(op, u, u, 0, n);
      }
    case 1 =>
      ColsAfter(op, t1, t, t1, t, u, jj, r1, 8, ii, c1, 0, n);
      if ii + BSIZE >= n {
        u2 := u;
        NoRect(op, u, u, jj, r1, 0, 0, 0, n);
      }
    case _ =>
      ColsAfter(op, t2, t, t2, t, u, jj, r1, 0, ii, c1, 0, n);
  }

  /** Back at the start, the band is done. */
  lemma RoundDone(op: Op, s: seq<real>, t1: seq<real>, t2: seq<real>, t: seq<real>, jj: nat, r1: nat, start: nat,
                  n: nat)
    requires start < n && r1 <= n && Round(op, s, t1, t2, t, jj, r1, start, start, 2, n)
    ensures Gains(op, Doubled(op, s, n), s, t, Rect(op, |s|, jj, r1, 0, n), 0, n)
  {
    RectCols(op, |s|, jj, r1, 0, start, n);
    forall x | 0 <= x < |s|
      ensures t[x] == if x in Rect(op, |s|, jj, r1, 0, n) then Doubled(op, s, n)[x] + op.Gain(x, 0, n) else s[x]
    {
      hide Op.Gain, Again, Op.Row, Op.Col;
      assert x in Again(op, |s|, jj, r1, n) <==> !Even(n) && op.In(x, jj, r1, 8, n);
      assert op.In(x, jj, r1, 8, n) <==> op.In(x, 0, n, 8, n) && op.In(x, jj, r1, 0, n) by { hide Op.Row, Op.Col; }
    }
  }

  /** The loop over block columns for one band. */
  method Band(core: Core, g: Grid, jj: nat, start: nat, ghost op: Op)
    requires core.Valid() && Divides(8, g.n) && Divides(BSIZE, jj) && jj < g.n && Divides(BSIZE, start) && start < g.n
    requires Ready(core.plan, core.id, core.epoch, g, op, jj, Min(jj + BSIZE, g.n), 0, g.n)
    modifies core`trace, core`mem
    ensures core.Valid() && |core.mem| == old(|core.mem|)
    ensures var r1 := Min(jj + BSIZE, g.n);
            Gains(op, Doubled(op, old(core.mem), g.n), old(core.mem), core.mem, Rect(op, |core.mem|, jj, r1, 0, g.n),
                  0, g.n)
  {
    var lda := g.n;
    ghost var s, size, r1 := core.mem, |core.mem|, Min(jj + BSIZE, lda);
    ghost var t1, t2, lap := s, s, 0;
    RoundStart(op, s, jj, r1, start, lda);
    hide *;
    var first := true;
    var ii: nat := start;
    while ii != start || first
      invariant core.Valid() && |core.mem| == size && ii < lda && Divides(8, ii) && lap <= 2
      invariant Round(op, s, t1, t2, core.mem, jj, r1, start, ii, lap, lda)
      invariant first ==> ii == start && lap == 0
      invariant !first && lap == 0 ==> ii > start
      decreases 2 - lap, lda - ii
    {
      first := false;
      ghost var t := core.mem;
      RoundFacts(op, s, t1, t2, t, jj, r1, start, ii, lap, lda);
      NextStart(start, ii, lap, lda, (BSIZE + ii) % lda);
      InRange(ii, lda);
      ReadySmaller(core.plan, core.id, core.epoch, g, op, jj, r1, 0, lda, jj, r1, ii, Min(ii + BSIZE, lda));
      CkBlock(core, g, jj, ii, op);
      t1, t2 := RoundNext(op, s, t1, t2, t, core.mem, jj, r1, start, ii, lap, lda);
      lap := NextLap(lap, ii, lda);
      ii := (BSIZE + ii) % lda;
    }
    RoundFacts(op, s, t1, t2, core.mem, jj, r1, start, ii, lap, lda);
    NotHalfway(start);
    InRange(jj, lda);
    RoundDone(op, s, t1, t2, core.mem, jj, r1, start, lda);
  }

  lemma RoundStart(op: Op, s: seq<real>, jj: nat, r1: nat, start: nat, n: nat)
    requires Divides(BSIZE, start)
    ensures Round(op, s, s, s, s, jj, r1, start, start, 0, n) && Divides(8, start)
  {
    EvenMore(start);
    NoRect(op, s, s, jj, r1, start, start, 0, n);
  }

  lemma RoundFacts(op: Op, s: seq<real>, t1: seq<real>, t2: seq<real>, t: seq<real>, jj: nat, r1: nat, start: nat,
                   ii: nat, lap: nat, n: nat)
    requires Round(op, s, t1, t2, t, jj, r1, start, ii, lap, n) && lap <= 2
    ensures if lap == 1 then !Even(n) && Divides(BSIZE, ii + 8)
              else Divides(BSIZE, ii) && (lap == 0 ==> ii >= start) && (lap == 2 ==> ii <= start)
  {
    hide Gains, Rect;
  }

  lemma InRange(ii: nat, n: nat)
    ensures Min(ii + BSIZE, n) <= n
  {
  }

  lemma NotHalfway(start: nat)
    ensures !(Divides(BSIZE, start) && Divides(BSIZE, start + 8))
  {
    hide Divides;
    if Divides(BSIZE, start) && Divides(BSIZE, start + 8) { NextMultiple(BSIZE, start, start + 8); }
  }

  // ---- all bands

  /** Row r is in band r / 16, and the bands are dealt out in turn. */
  function BandOwner(ncores: nat): int -> nat { (r: int) => if r < 0 || ncores == 0 then 0 else r / BSIZE % ncores }

  function BandStart(id: nat, ncores: nat, t: nat): nat { BSIZE * (id + t * ncores) }

  /** The core's elements above row `end`. */
  function Above(op: Op, size: nat, n: nat, ncores: nat, id: nat, end: nat): set<nat> {
    set x: nat | x < size && op.In(x, 0, n, 0, n) && op.Row(x) < end && BandOwner(ncores)(op.Row(x)) == id
  }

  ghost predicate ReadyBands(plan: Plan, id: nat, e: nat, g: Grid, op: Op, ncores: nat) {
    forall t: nat | BandStart(id, ncores, t) < g.n ::
      Ready(plan, id, e, g, op, BandStart(id, ncores, t), Min(BandStart(id, ncores, t) + BSIZE, g.n), 0, g.n)
  }

  lemma BandRows(id: nat, ncores: nat, t: nat, r: nat)
    requires id < ncores
    ensures BandStart(id, ncores, t + 1) == BandStart(id, ncores, t) + BSIZE * ncores
    ensures BandStart(id, ncores, t) <= r < BandStart(id, ncores, t) + BSIZE ==> BandOwner(ncores)(r) == id
    ensures BandStart(id, ncores, t) + BSIZE <= r < BandStart(id, ncores, t + 1) ==> BandOwner(ncores)(r) != id
    ensures r < BandStart(id, ncores, 0) ==> BandOwner(ncores)(r) != id
  {
    assert (t + 1) * ncores == t * ncores + ncores;
    var q := Quot(r, BSIZE);
    assert BandOwner(ncores)(r) == Rem(q, ncores);
    QuotRem(r, BSIZE);
    hide Quot, Rem;
    if BandStart(id, ncores, t) <= r < BandStart(id, ncores, t) + BSIZE {
      QuotRemUnique(q, ncores, t, id);
    } else if BandStart(id, ncores, t) + BSIZE <= r < BandStart(id, ncores, t + 1) {
      if q < (t + 1) * ncores {
        QuotRemUnique(q, ncores, t, q - t * ncores);
      } else {
        QuotRemUnique(q, ncores, t + 1, q - (t + 1) * ncores);
      }
    } else if r < BandStart(id, ncores, 0) {
      QuotRemUnique(q, ncores, 0, q);
    }
  }

  lemma NextBand(op: Op, size: nat, n: nat, ncores: nat, id: nat, t: nat)
    requires id < ncores && BandStart(id, ncores, t) < n
    ensures var jj := BandStart(id, ncores, t);
            Above(op, size, n, ncores, id, BandStart(id, ncores, t + 1)) ==
            Above(op, size, n, ncores, id, jj) + Rect(op, size, jj, Min(jj + BSIZE, n), 0, n)
    ensures var jj := BandStart(id, ncores, t);
            Above(op, size, n, ncores, id, jj) !! Rect(op, size, jj, Min(jj + BSIZE, n), 0, n)
  {
    var jj := BandStart(id, ncores, t);
    forall x: nat {:trigger op.In(x, 0, n, 0, n)} | x < size
      ensures x in Above(op, size, n, ncores, id, BandStart(id, ncores, t + 1)) <==>
              x in Above(op, size, n, ncores, id, jj) + Rect(op, size, jj, Min(jj + BSIZE, n), 0, n)
    {
      hide BandOwner, BandStart, Op.Row, Op.Col;
      if op.In(x, 0, n, 0, n) { BandRows(id, ncores, t, op.Row(x)); }
      BandRows(id, ncores, t, 0);
    }
  }

  lemma NoBands(op: Op, size: nat, n: nat, ncores: nat, id: nat)
    requires id < ncores
    ensures Above(op, size, n, ncores, id, BandStart(id, ncores, 0)) == {}
  {
    hide BandOwner, BandStart, Op.Row, Op.Col;
    forall x: nat | x < size && op.In(x, 0, n, 0, n) && op.Row(x) < BandStart(id, ncores, 0)
      ensures BandOwner(ncores)(op.Row(x)) != id
    {
      BandRows(id, ncores, 0, op.Row(x));
    }
  }

  lemma DoubledMore(op: Op, s: seq<real>, t: seq<real>, u: seq<real>, D: set<nat>, E: set<nat>, n: nat)
    requires Gains(op, Doubled(op, s, n), s, t, D, 0, n) && Gains(op, Doubled(op, t, n), t, u, E, 0, n) && D !! E
    ensures Gains(op, Doubled(op, s, n), s, u, D + E, 0, n)
  {
    forall x | 0 <= x < |s| ensures u[x] == if x in D + E then Doubled(op, s, n)[x] + op.Gain(x, 0, n) else s[x] {
      hide Op.In, Op.Gain, Even;
    }
  }

  /** matmul on one core. */
  method Matmul(core: Core, ncores: nat, g: Grid, ghost op: Op)
    requires core.Valid() && core.id < ncores && Divides(8, g.n) &&
             ReadyBands(core.plan, core.id, core.epoch, g, op, ncores)
    modifies core`trace, core`mem
    ensures core.Valid() && |core.mem| == old(|core.mem|)
    ensures Gains(op, Doubled(op, old(core.mem), g.n), old(core.mem), core.mem,
                  Mine(op, |core.mem|, g.n, g.n, BandOwner(ncores), core.id), 0, g.n)
  {
    hide Core.Valid, Ready, Gains, Rect, Doubled, Above, Min, Mine, BandStart, BandOwner, Divides;
    ghost var s, size, t := core.mem, |core.mem|, 0;
    FirstBand(core.id, ncores, 0);
    NoBands(op, size, g.n, ncores, core.id);
    DoubledSize(op, s, g.n);
    GainsNothing(op, Doubled(op, s, g.n), s, 0, g.n);
    var start := BSIZE * core.id;
    var jj := start;
    while jj < g.n
      invariant jj == BandStart(core.id, ncores, t) && Divides(BSIZE, jj) && core.Valid() && |core.mem| == size
      invariant Gains(op, Doubled(op, s, g.n), s, core.mem, Above(op, size, g.n, ncores, core.id, jj), 0, g.n)
      decreases g.n - jj
    {
      ghost var r := core.mem;
      NextBand(op, size, g.n, ncores, core.id, t);
      BandRows(core.id, ncores, t, 0);
      FirstBand(core.id, ncores, t);
      FirstBand(core.id, ncores, t + 1);
      Band(core, g, jj, start, op);
      DoubledMore(op, s, r, core.mem, Above(op, size, g.n, ncores, core.id, jj),
                  Rect(op, size, jj, Min(jj + BSIZE, g.n), 0, g.n), g.n);
      jj := jj + BSIZE * ncores;
      t := t + 1;
    }
    AllAbove(op, size, g.n, ncores, core.id, jj);
  }

  lemma DoubledSize(op: Op, s: seq<real>, n: nat)
    ensures |Doubled(op, s, n)| == |s|
  {
  }

  lemma FirstBand(id: nat, ncores: nat, t: nat)
    ensures BSIZE * id <= BandStart(id, ncores, t) && Divides(BSIZE, BSIZE * id) &&
            Divides(BSIZE, BandStart(id, ncores, t))
    ensures BandStart(id, ncores, 0) == BSIZE * id
  {
  }

  lemma AllAbove(op: Op, size: nat, n: nat, ncores: nat, id: nat, end: nat)
    requires end >= n
    ensures Above(op, size, n, ncores, id, end) == Mine(op, size, n, n, BandOwner(ncores), id)
  {
    hide Op.Row, Op.Col, BandOwner;
  }

  // ---- all cores

  lemma BandsReady(cores: nat, m0: seq<real>, g: Grid, id: nat, e: nat)
    requires Apart(g, |m0|) && g.sk == g.n && g.sj == 1 && id < cores
    ensures ReadyBands(RowPlan(cores, m0, g, g.n, BandOwner(cores)), id, e, g, WholeOp(g, m0), cores)
  {
    hide Apart, Ready, RowPlan, WholeOp, BandOwner, BandStart;
    forall t: nat | BandStart(id, cores, t) < g.n
      ensures Ready(RowPlan(cores, m0, g, g.n, BandOwner(cores)), id, e, g, WholeOp(g, m0),
                    BandStart(id, cores, t), Min(BandStart(id, cores, t) + BSIZE, g.n), 0, g.n)
    {
      var jj := BandStart(id, cores, t);
      forall r | jj <= r < Min(jj + BSIZE, g.n) ensures BandOwner(cores)(r) == id { BandRows(id, cores, t, r); }
      RowPlanReady(cores, m0, g, g.n, BandOwner(cores), id, e, jj, Min(jj + BSIZE, g.n));
    }
  }

  lemma BandOwners(cores: nat, n: nat)
    requires cores > 0
    ensures forall r | 0 <= r < n :: BandOwner(cores)(r) < cores
  {
  }

  /** All cores run matmul on the memory m0.  In every interleaving C ends with the product
      added once, and once more in the columns that are visited twice. */
  method MatmulAll(ncores: nat, m0: seq<real>, g: Grid) returns (ghost ts: seq<seq<Event>>)
    requires ncores > 0 && Divides(8, g.n) && Apart(g, |m0|) && g.sk == g.n && g.sj == 1
    ensures |ts| == ncores
    ensures var plan, op := RowPlan(ncores, m0, g, g.n, BandOwner(ncores)), WholeOp(g, m0);
            Team(plan, ts, 0) && Correct(plan, ts, 0, op, Doubled(op, m0, g.n), g.n, g.n)
  {
    hide Sound, Gains, Worked, Apart, Doubled;
    var plan := RowPlan(ncores, m0, g, g.n, BandOwner(ncores));
    ghost var op := WholeOp(g, m0);
    RowPlanSound(ncores, m0, g, g.n, BandOwner(ncores));
    DoubledSize(op, m0, g.n);
    ts := [];
    for c := 0 to ncores
      invariant |ts| == c &&
                forall d | 0 <= d < c ::
                  Worked(plan, d, ts[d], 0, op, Doubled(op, m0, g.n), g.n, g.n, BandOwner(ncores))
    {
      var tr := MatmulOne(ncores, m0, g, c, plan);
      ts := ts + [tr];
    }
    BandOwners(ncores, g.n);
    NoBarriers(ncores, m0, g, g.n, BandOwner(ncores), Doubled(op, m0, g.n), ts);
  }

  method MatmulOne(ncores: nat, m0: seq<real>, g: Grid, c: nat, plan: Plan) returns (ghost tr: seq<Event>)
    requires c < ncores && Divides(8, g.n) && Apart(g, |m0|) && g.sk == g.n && g.sj == 1
    requires plan == RowPlan(ncores, m0, g, g.n, BandOwner(ncores)) && Sound(plan)
    ensures Worked(plan, c, tr, 0, WholeOp(g, m0), Doubled(WholeOp(g, m0), m0, g.n), g.n, g.n, BandOwner(ncores))
  {
    hide Sound, Gains, ReadyBands, Apart, Rect, Mine, Doubled;
    BandsReady(ncores, m0, g, c, 0);
    var core := new Core(c, plan);
    Matmul(core, ncores, g, WholeOp(g, m0));
    tr := core.trace;
  }

  // ---- when the kernel is right

  /** The traces that MatmulAll returns: C ends with the product, doubled as it may be. */
  ghost predicate Ran(ncores: nat, m0: seq<real>, g: Grid, ts: seq<seq<Event>>) {
    && |ts| == ncores && Team(RowPlan(ncores, m0, g, g.n, BandOwner(ncores)), ts, 0)
    && Right(ncores, m0, g, ts, Doubled(WholeOp(g, m0), m0, g.n))
  }

  /** Every run over the memory m0 leaves C as it is in base with the product added. */
  ghost predicate Right(ncores: nat, m0: seq<real>, g: Grid, ts: seq<seq<Event>>, base: seq<real>) {
    Correct(RowPlan(ncores, m0, g, g.n, BandOwner(ncores)), ts, 0, WholeOp(g, m0), base, g.n, g.n)
  }

  /** The product is zero wherever it is added twice. */
  ghost predicate NothingTwice(m0: seq<real>, g: Grid) {
    forall x: nat | x < |m0| && WholeOp(g, m0).In(x, 0, g.n, 8, g.n) :: WholeOp(g, m0).Gain(x, 0, g.n) == 0.0
  }

  /** What the runs leave is the product added once to the memory they started from, exactly
      if the round is even or the product is zero in all but the first eight columns. */
  lemma RightExactly(ncores: nat, m0: seq<real>, g: Grid, ts: seq<seq<Event>>)
    requires ncores > 0 && Ran(ncores, m0, g, ts)
    ensures Right(ncores, m0, g, ts, m0) <==> Even(g.n) || NothingTwice(m0, g)
  {
    var op, plan := WholeOp(g, m0), RowPlan(ncores, m0, g, g.n, BandOwner(ncores));
    var twice := Doubled(op, m0, g.n);
    DoubledSame(m0, g);
    if Right(ncores, m0, g, ts, m0) {
      assert m0 == twice by {
        var s := SomeEnd(plan, ts, op, m0, twice, g.n);
        SameBase(op, m0, m0, twice, s, g.n);
        DoubledOutside(op, m0, g.n);
      }
    }
  }

  /** The memory after some run of all cores to their ends. */
  lemma SomeEnd(plan: Plan, ts: seq<seq<Event>>, op: Op, base: seq<real>, base': seq<real>, n: nat)
    returns (s: seq<real>)
    requires Correct(plan, ts, 0, op, base, n, n) && Correct(plan, ts, 0, op, base', n, n)
    ensures Multiplied(op, base, plan.mem(0), s, n, n) && Multiplied(op, base', plan.mem(0), s, n, n)
  {
    hide After, Done, Multiplied;
    assert CanFinish(plan, ts, []);
    var more :| Finishes(plan, ts, [], more);
    s := After(plan, ts, [] + more).mem;
  }

  lemma SameBase(op: Op, s0: seq<real>, base: seq<real>, base': seq<real>, s: seq<real>, n: nat)
    requires Multiplied(op, base, s0, s, n, n) && Multiplied(op, base', s0, s, n, n)
    ensures |base| == |base'| == |s0| && forall x | 0 <= x < |s0| && op.In(x, 0, n, 0, n) :: base[x] == base'[x]
  {
    hide Op.Gain, Op.In;
    forall x | 0 <= x < |s0| && op.In(x, 0, n, 0, n) ensures base[x] == base'[x] {
      assert x in Rect(op, |s0|, 0, n, 0, n);
    }
  }

  lemma DoubledOutside(op: Op, s: seq<real>, n: nat)
    requires forall x | 0 <= x < |s| && op.In(x, 0, n, 0, n) :: s[x] == Doubled(op, s, n)[x]
    ensures s == Doubled(op, s, n)
  {
    forall x | 0 <= x < |s| ensures s[x] == Doubled(op, s, n)[x] {
      hide Op.Gain, Op.Row, Op.Col;
      assert op.In(x, 0, n, 8, n) ==> op.In(x, 0, n, 0, n);
    }
  }

  lemma DoubledSame(m0: seq<real>, g: Grid)
    ensures m0 == Doubled(WholeOp(g, m0), m0, g.n) <==> Even(g.n) || NothingTwice(m0, g)
  {
    hide Op.In, Op.Gain, Even, WholeOp;
    var op := WholeOp(g, m0);
    var twice := Doubled(op, m0, g.n);
    forall x | 0 <= x < |m0|
      ensures m0[x] == twice[x] <==> Even(g.n) || !op.In(x, 0, g.n, 8, g.n) || op.Gain(x, 0, g.n) == 0.0
    {
    }
  }

  /** A memory of ones. */
  function Ones(size: nat): seq<real> { seq(size, _ => 1.0) }

  lemma {:induction false} OnesSum(g: Grid, size: nat, i: nat, j: nat, k: nat)
    requires Apart(g, size) && i < g.n && j < g.n && k <= g.n
    ensures WholeOp(g, Ones(size)).Sum(i, j, 0, k) == k as real
  {
    if k > 0 {
      OnesSum(g, size, i, j, k - 1);
      Inside(g.n, i, k - 1);
      Inside(g.n, k - 1, j);
      WholeOp(g, Ones(size)).SumNext(i, j, k - 1);
    }
  }

  lemma OnesTwice(g: Grid, size: nat)
    requires Divides(8, g.n) && Apart(g, size)
    ensures NothingTwice(Ones(size), g) ==> Even(g.n)
  {
    if !Even(g.n) {
      var op := WholeOp(g, Ones(size));
      Inside(g.n, 0, 8);
      op.RowCol(0, 8);
      OnesSum(g, size, 0, 8, g.n);
      assert op.In(g.oc + 8, 0, g.n, 8, g.n) && op.Gain(g.oc + 8, 0, g.n) == g.n as real;
    }
  }

  /** For every layout: whatever the memory, all runs leave the product added once if lda is a
      multiple of 16 or at most 16, and only then.  The memory of ones tells: the runs over it
      are right exactly in that case. */
  method RightWhenEven(ncores: nat, g: Grid, size: nat) returns (m0: seq<real>, ghost ts: seq<seq<Event>>)
    requires ncores > 0 && Divides(8, g.n) && Apart(g, size) && g.sk == g.n && g.sj == 1
    ensures |m0| == size && Ran(ncores, m0, g, ts) && (Right(ncores, m0, g, ts, m0) <==> Even(g.n))
    ensures Even(g.n) <==>
              forall m: seq<real>, us: seq<seq<Event>> | |m| == size && Ran(ncores, m, g, us) ::
                Right(ncores, m, g, us, m)
  {
    hide *;
    m0 := Ones(size);
    OnesSize(size);
    ts := RunAll(ncores, m0, g);
    RightExactly(ncores, m0, g, ts);
    OnesTwice(g, size);
    if Even(g.n) {
      forall m: seq<real>, us: seq<seq<Event>> | |m| == size && Ran(ncores, m, g, us)
        ensures Right(ncores, m, g, us, m)
      {
        RightExactly(ncores, m, g, us);
      }
    }
  }

  lemma OnesSize(size: nat)
    ensures |Ones(size)| == size
  {
  }

  method RunAll(ncores: nat, m0: seq<real>, g: Grid) returns (ghost ts: seq<seq<Event>>)
    requires ncores > 0 && Divides(8, g.n) && Apart(g, |m0|) && g.sk == g.n && g.sj == 1
    ensures Ran(ncores, m0, g, ts)
  {
    hide Team, Correct, RowPlan, Doubled;
    ts := MatmulAll(ncores, m0, g);
  }
}
