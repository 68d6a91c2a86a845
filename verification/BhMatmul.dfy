/** bh_matmul.c: one core takes the upper half of the rows upwards, the other the lower half
    downwards, each with the depth in two halves; any further core returns at once. */
module BhMatmul {
  import opened Powers
  import opened MatrixWindow
  import opened Interleaving
  import opened SharedCore
  import opened BlockKernel
  import opened RowOwners

  lemma RowsBefore(op: Op, s: seq<real>, t: seq<real>, u: seq<real>, r0: nat, r: nat, r1: nat, c0: int, c1: int,
                   lo: int, hi: int)
    requires r0 <= r <= r1 && Gains(op, s, s, t, Rect(op, |s|, r, r1, c0, c1), lo, hi)
    requires Gains(op, t, t, u, Rect(op, |s|, r0, r, c0, c1), lo, hi)
    ensures Gains(op, s, s, u, Rect(op, |s|, r0, r1, c0, c1), lo, hi)
  {
    hide *;
    RectRows(op, |s|, r0, r, r1, c0, c1);
    GainsMore(op, s, t, s, t, u, Rect(op, |s|, r, r1, c0, c1), Rect(op, |s|, r0, r, c0, c1), lo, hi);
    Swap(Rect(op, |s|, r, r1, c0, c1), Rect(op, |s|, r0, r, c0, c1));
  }

  lemma ColsBefore(op: Op, s: seq<real>, t: seq<real>, u: seq<real>, r0: int, r1: int, c0: int, c: int, c1: int,
                   lo: int, hi: int)
    requires c0 <= c <= c1 && Gains(op, s, s, t, Rect(op, |s|, r0, r1, c, c1), lo, hi)
    requires Gains(op, t, t, u, Rect(op, |s|, r0, r1, c0, c), lo, hi)
    ensures Gains(op, s, s, u, Rect(op, |s|, r0, r1, c0, c1), lo, hi)
  {
    hide *;
    RectCols(op, |s|, r0, r1, c0, c, c1);
    GainsMore(op, s, t, s, t, u, Rect(op, |s|, r0, r1, c, c1), Rect(op, |s|, r0, r1, c0, c), lo, hi);
    Swap(Rect(op, |s|, r0, r1, c, c1), Rect(op, |s|, r0, r1, c0, c));
  }

  lemma Swap(D: set<nat>, E: set<nat>)
    ensures D + E == E + D && (D !! E <==> E !! D)
  {
  }

  // ---- core 0

  /** Row j, eight columns at a time from the left. */
  method RowUp(core: Core, g: Grid, j: nat, lo: nat, hi: nat, ghost q: nat, ghost op: Op)
    requires core.Valid() && g.n == 8 * q && lo <= hi <= g.n && (hi - lo) % 2 == 0 && j < g.n
    requires Ready(core.plan, core.id, core.epoch, g, op, j, j + 1, 0, g.n)
    modifies core`trace, core`mem
    ensures core.Valid() && |core.mem| == old(|core.mem|)
    ensures Gains(op, old(core.mem), old(core.mem), core.mem, Rect(op, |core.mem|, j, j + 1, 0, g.n), lo, hi)
  {
    hide *;
    ghost var s, size, v := core.mem, |core.mem|, 0;
    NoRect(op, s, s, j, j + 1, 0, 0, lo, hi);
    var i := 0;
    while i < g.n
      invariant i == 8 * v && v <= q && core.Valid() && |core.mem| == size
      invariant Gains(op, s, s, core.mem, Rect(op, size, j, j + 1, 0, i), lo, hi)
      decreases g.n - i
    {
      ghost var t := core.mem;
      ReadySmaller(core.plan, core.id, core.epoch, g, op, j, j + 1, 0, g.n, j, j + 1, i, i + 8);
      Block(core, g, j, 1, i, 8, lo, hi, 2, false, false, op);
      ColsAfter(op, s, t, s, t, core.mem, j, j + 1, 0, i, i + 8, lo, hi);
      i := i + 8;
      v := v + 1;
    }
  }

  /** The upper half of the rows, over one half of the depth. */
  method UpperHalf(core: Core, g: Grid, lo: nat, hi: nat, ghost q: nat, ghost op: Op)
    requires core.Valid() && g.n == 8 * q && lo <= hi <= g.n && (hi - lo) % 2 == 0
    requires Ready(core.plan, core.id, core.epoch, g, op, 0, g.n / 2, 0, g.n)
    modifies core`trace, core`mem
    ensures core.Valid() && |core.mem| == old(|core.mem|)
    ensures Gains(op, old(core.mem), old(core.mem), core.mem, Rect(op, |core.mem|, 0, g.n / 2, 0, g.n), lo, hi)
  {
    hide *;
    var half := g.n / 2;
    ghost var s, size := core.mem, |core.mem|;
    NoRect(op, s, s, 0, 0, 0, g.n, lo, hi);
    var j := 0;
    while j < half
      invariant 0 <= j <= half && core.Valid() && |core.mem| == size
      invariant Gains(op, s, s, core.mem, Rect(op, size, 0, j, 0, g.n), lo, hi)
    {
      ghost var t := core.mem;
      ReadySmaller(core.plan, core.id, core.epoch, g, op, 0, half, 0, g.n, j, j + 1, 0, g.n);
      RowUp(core, g, j, lo, hi, q, op);
      RowsAfter(op, s, t, s, t, core.mem, 0, j, j + 1, 0, g.n, lo, hi);
      j := j + 1;
    }
  }

  // ---- core 1

  /** Row j, eight columns at a time from the right. */
  method RowDown(core: Core, g: Grid, j: nat, lo: nat, hi: nat, ghost q: nat, ghost op: Op)
    requires core.Valid() && g.n == 8 * q && lo <= hi <= g.n && (hi - lo) % 2 == 0 && j < g.n
    requires Ready(core.plan, core.id, core.epoch, g, op, j, j + 1, 0, g.n)
    modifies core`trace, core`mem
    ensures core.Valid() && |core.mem| == old(|core.mem|)
    ensures Gains(op, old(core.mem), old(core.mem), core.mem, Rect(op, |core.mem|, j, j + 1, 0, g.n), lo, hi)
  {
    ghost var s, size, v := core.mem, |core.mem|, q;
    NoRect(op, s, s, j, j + 1, g.n, g.n, lo, hi);
    hide *;
    var i := g.n - 1;
    while i >= 0
      invariant i + 1 == 8 * v && v <= q && core.Valid() && |core.mem| == size
      invariant Gains(op, s, s, core.mem, Rect(op, size, j, j + 1, i + 1, g.n), lo, hi)
      decreases i
    {
      ghost var t := core.mem;
      ReadySmaller(core.plan, core.id, core.epoch, g, op, j, j + 1, 0, g.n, j, j + 1, i - 7, i + 1);
      Block(core, g, j, 1, i - 7, 8, lo, hi, 2, true, false, op);
      ColsBefore(op, s, t, core.mem, j, j + 1, i - 7, i + 1, g.n, lo, hi);
      i := i - 8;
      v := v - 1;
    }
  }

  /** The lower half of the rows, over one half of the depth. */
  method LowerHalf(core: Core, g: Grid, lo: nat, hi: nat, ghost q: nat, ghost op: Op)
    requires core.Valid() && g.n == 8 * q && lo <= hi <= g.n && (hi - lo) % 2 == 0
    requires Ready(core.plan, core.id, core.epoch, g, op, g.n / 2, g.n, 0, g.n)
    modifies core`trace, core`mem
    ensures core.Valid() && |core.mem| == old(|core.mem|)
    ensures Gains(op, old(core.mem), old(core.mem), core.mem, Rect(op, |core.mem|, g.n / 2, g.n, 0, g.n), lo, hi)
  {
    hide *;
    var half := g.n / 2;
    ghost var s, size := core.mem, |core.mem|;
    NoRect(op, s, s, g.n, g.n, 0, g.n, lo, hi);
    var j := g.n - 1;
    while j >= half
      invariant half - 1 <= j < g.n && core.Valid() && |core.mem| == size
      invariant Gains(op, s, s, core.mem, Rect(op, size, j + 1, g.n, 0, g.n), lo, hi)
      decreases j
    {
      ghost var t := core.mem;
      ReadySmaller(core.plan, core.id, core.epoch, g, op, half, g.n, 0, g.n, j, j + 1, 0, g.n);
      RowDown(core, g, j, lo, hi, q, op);
      RowsBefore(op, s, t, core.mem, j, j + 1, g.n, 0, g.n, lo, hi);
      j := j - 1;
    }
  }

  // ---- the kernel

  /** With two cores or more, the lower half of the rows is core 1's. */
  function HalfOwner(n: nat, ncores: nat): int -> nat { (r: int) => if ncores >= 2 && r >= n / 2 then 1 else 0 }

  /** matmul on one core; m*lda/2 is m*(lda/2) since lda is even. */
  method Matmul(core: Core, ncores: nat, g: Grid, ghost q: nat, ghost op: Op)
    requires core.Valid() && core.id < ncores && g.n == 8 * q
    requires core.id == 0 ==> Ready(core.plan, core.id, core.epoch, g, op, 0, g.n / 2, 0, g.n)
    requires core.id == 1 || ncores == 1 ==> Ready(core.plan, core.id, core.epoch, g, op, g.n / 2, g.n, 0, g.n)
    modifies core`trace, core`mem
    ensures core.Valid() && |core.mem| == old(|core.mem|)
    ensures Gains(op, old(core.mem), old(core.mem), core.mem,
                  Mine(op, |core.mem|, g.n, g.n, HalfOwner(g.n, ncores), core.id), 0, g.n)
  {
    hide Core.Valid, Ready, Gains, Mine, Rect;
    var lda := g.n;
    ghost var s, size := core.mem, |core.mem|;
    HalfMine(op, size, lda, ncores, core.id);
    Halves(lda, q);
    if core.id > 1 {
      GainsNothing(op, s, s, 0, lda);
      return;
    }
    ghost var t := s;
    if core.id == 0 {
      UpperHalf(core, g, 0 * lda / 2, (0 + 1) * lda / 2, q, op);
      ghost var u := core.mem;
      UpperHalf(core, g, 1 * lda / 2, (1 + 1) * lda / 2, q, op);
      t := core.mem;
      GainsDeeper(op, s, u, t, Rect(op, size, 0, lda / 2, 0, lda), 0, lda / 2, lda);
    }
    if core.id == 1 || ncores == 1 {
      LowerHalf(core, g, (2 - 1) * lda / 2, 2 * lda / 2, q, op);
      ghost var u := core.mem;
      LowerHalf(core, g, (1 - 1) * lda / 2, 1 * lda / 2, q, op);
      GainsDeeper(op, t, u, core.mem, Rect(op, size, lda / 2, lda, 0, lda), 0, lda / 2, lda);
      if core.id == 0 { RowsAfter(op, s, t, s, t, core.mem, 0, lda / 2, lda, 0, lda, 0, lda); }
    }
  }

  lemma Halves(n: nat, q: nat)
    requires n == 8 * q
    ensures 0 * n / 2 == 0 && (0 + 1) * n / 2 == n / 2 && 1 * n / 2 == n / 2 && (1 + 1) * n / 2 == n &&
            2 * n / 2 == n && (2 - 1) * n / 2 == n / 2 && (1 - 1) * n / 2 == 0
    ensures n / 2 == 4 * q && (n / 2 - 0) % 2 == 0 && (n - n / 2) % 2 == 0
  {
  }

  lemma HalfMine(op: Op, size: nat, n: nat, ncores: nat, c: nat)
    requires c < ncores
    ensures c > 1 ==> Mine(op, size, n, n, HalfOwner(n, ncores), c) == {}
    ensures c == 1 ==> Mine(op, size, n, n, HalfOwner(n, ncores), c) == Rect(op, size, n / 2, n, 0, n)
    ensures c == 0 && ncores > 1 ==> Mine(op, size, n, n, HalfOwner(n, ncores), c) == Rect(op, size, 0, n / 2, 0, n)
    ensures ncores == 1 ==> Mine(op, size, n, n, HalfOwner(n, ncores), c) == Rect(op, size, 0, n, 0, n)
  {
    var half := n / 2;
    assert forall r: int :: HalfOwner(n, ncores)(r) == if ncores >= 2 && r >= half then 1 else 0;
    hide Op.Row, Op.Col, HalfOwner;
  }

  /** All cores run matmul on the memory m0: in every interleaving C gains the product. */
  method MatmulAll(ncores: nat, m0: seq<real>, g: Grid, ghost q: nat) returns (ghost ts: seq<seq<Event>>)
    requires ncores > 0 && g.n == 8 * q && Apart(g, |m0|) && g.sk == g.n && g.sj == 1
    ensures |ts| == ncores
    ensures var plan := RowPlan(ncores, m0, g, g.n, HalfOwner(g.n, ncores));
            Team(plan, ts, 0) && Correct(plan, ts, 0, WholeOp(g, m0), m0, g.n, g.n)
  {
    hide Sound, Gains, Worked, Apart;
    var plan := RowPlan(ncores, m0, g, g.n, HalfOwner(g.n, ncores));
    ghost var op := WholeOp(g, m0);
    RowPlanSound(ncores, m0, g, g.n, HalfOwner(g.n, ncores));
    ts := [];
    for c := 0 to ncores
      invariant |ts| == c &&
                forall d | 0 <= d < c :: Worked(plan, d, ts[d], 0, op, m0, g.n, g.n, HalfOwner(g.n, ncores))
    {
      var tr := MatmulOne(ncores, m0, g, c, plan, q);
      ts := ts + [tr];
    }
    NoBarriers(ncores, m0, g, g.n, HalfOwner(g.n, ncores), m0, ts);
  }

  method MatmulOne(ncores: nat, m0: seq<real>, g: Grid, c: nat, plan: Plan, ghost q: nat) returns (ghost tr: seq<Event>)
    requires c < ncores && g.n == 8 * q && Apart(g, |m0|) && g.sk == g.n && g.sj == 1
    requires plan == RowPlan(ncores, m0, g, g.n, HalfOwner(g.n, ncores)) && Sound(plan)
    ensures Worked(plan, c, tr, 0, WholeOp(g, m0), m0, g.n, g.n, HalfOwner(g.n, ncores))
  {
    hide Sound, Gains, Ready, Apart, Rect, Mine;
    if c == 0 { RowPlanReady(ncores, m0, g, g.n, HalfOwner(g.n, ncores), c, 0, 0, g.n / 2); }
    if c == 1 || ncores == 1 { RowPlanReady(ncores, m0, g, g.n, HalfOwner(g.n, ncores), c, 0, g.n / 2, g.n); }
    var core := new Core(c, plan);
    Matmul(core, ncores, g, q, WholeOp(g, m0));
    tr := core.trace;
  }
}
