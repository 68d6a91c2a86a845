/** mt-matmul: the rows dealt out in equal blocks. */
module BaseMatmul {
  import opened Powers
  import opened MatrixWindow
  import opened Interleaving
  import opened SharedCore
  import opened BlockKernel
  import opened RowOwners

  /** matmul on one core: C's rows in the core's block are set to the product. */
  method Matmul(core: Core, ncores: nat, g: Grid, ghost op: Op)
    requires core.Valid() && core.id < ncores
    requires var b := g.n / ncores; Ready(core.plan, core.id, core.epoch, g, op, b * core.id, b * core.id + b, 0, g.n)
    modifies core`trace, core`mem
    ensures core.Valid() && |core.mem| == old(|core.mem|)
    ensures var b := g.n / ncores;
            Gains(op, Zeros(|core.mem|), old(core.mem), core.mem,
                  Rect(op, |core.mem|, b * core.id, b * core.id + b, 0, g.n), 0, g.n)
  {
    hide Core.Valid, Ready, Gains, Rect;
    var lda := g.n;
    var block := lda / ncores;
    var start := block * core.id;
    var end := start + block;
    ghost var s, size := core.mem, |core.mem|;
    NoRect(op, Zeros(size), s, start, end, 0, 0, 0, lda);
    var i := 0;
    while i < lda
      invariant 0 <= i <= lda && core.Valid() && |core.mem| == size
      invariant Gains(op, Zeros(size), s, core.mem, Rect(op, size, start, end, 0, i), 0, lda)
    {
      ghost var t := core.mem;
      ReadySmaller(core.plan, core.id, core.epoch, g, op, start, end, 0, lda, start, end, i, i + 1);
      Column(core, g, i, start, end, op);
      ColsAfter(op, Zeros(size), Zeros(size), s, t, core.mem, start, end, 0, i, i + 1, 0, lda);
      i := i + 1;
    }
  }

  method Column(core: Core, g: Grid, i: nat, start: nat, end: nat, ghost op: Op)
    requires core.Valid() && start <= end && Ready(core.plan, core.id, core.epoch, g, op, start, end, i, i + 1)
    modifies core`trace, core`mem
    ensures core.Valid() && |core.mem| == old(|core.mem|)
    ensures Gains(op, Zeros(|core.mem|), old(core.mem), core.mem, Rect(op, |core.mem|, start, end, i, i + 1), 0, g.n)
  {
    hide Core.Valid, Ready, Gains, Rect;
    ghost var s, size := core.mem, |core.mem|;
    NoRect(op, Zeros(size), s, start, start, i, i + 1, 0, g.n);
    var j := start;
    while j < end
      invariant start <= j <= end && core.Valid() && |core.mem| == size
      invariant Gains(op, Zeros(size), s, core.mem, Rect(op, size, start, j, i, i + 1), 0, g.n)
    {
      ghost var t := core.mem;
      ReadySmaller(core.plan, core.id, core.epoch, g, op, start, end, i, i + 1, j, j + 1, i, i + 1);
      Block(core, g, j, 1, i, 1, 0, g.n, 1, false, true, op);
      RowsAfter(op, Zeros(size), Zeros(size), s, t, core.mem, start, j, j + 1, i, i + 1, 0, g.n);
      j := j + 1;
    }
  }

  /** All cores run matmul on the memory m0.  In every interleaving, when all have
      returned, the rows that the blocks cover hold the product and the rest is as it was. */
  method MatmulAll(ncores: nat, m0: seq<real>, g: Grid) returns (ghost ts: seq<seq<Event>>)
    requires ncores > 0 && Apart(g, |m0|) && g.sk == g.n && g.sj == 1
    ensures |ts| == ncores
    ensures var b := g.n / ncores; var plan := RowPlan(ncores, m0, g, b * ncores, BlockOwner(b));
            Team(plan, ts, 0) && Correct(plan, ts, 0, WholeOp(g, m0), Zeros(|m0|), b * ncores, g.n)
  {
    hide Sound, Gains, Worked, Apart;
    var b := g.n / ncores;
    var plan := RowPlan(ncores, m0, g, b * ncores, BlockOwner(b));
    ghost var op, zero := WholeOp(g, m0), Zeros(|m0|);
    assert b * ncores <= g.n;
    RowPlanSound(ncores, m0, g, b * ncores, BlockOwner(b));
    ts := [];
    for c := 0 to ncores
      invariant |ts| == c &&
                forall d | 0 <= d < c :: Worked(plan, d, ts[d], 0, op, zero, b * ncores, g.n, BlockOwner(b))
    {
      var tr := MatmulOne(ncores, m0, g, b, c, plan);
      ts := ts + [tr];
    }
    OwnersInRange(b, ncores);
    NoBarriers(ncores, m0, g, b * ncores, BlockOwner(b), zero, ts);
  }

  method MatmulOne(ncores: nat, m0: seq<real>, g: Grid, b: nat, c: nat, plan: Plan) returns (ghost tr: seq<Event>)
    requires c < ncores && Apart(g, |m0|) && g.sk == g.n && g.sj == 1 && b == g.n / ncores && b * ncores <= g.n
    requires plan == RowPlan(ncores, m0, g, b * ncores, BlockOwner(b)) && Sound(plan)
    ensures Worked(plan, c, tr, 0, WholeOp(g, m0), Zeros(|m0|), b * ncores, g.n, BlockOwner(b))
  {
    hide Sound, Gains, Ready, Apart, Rect, Mine;
    BlockOwners(WholeOp(g, m0), |m0|, g.n, b, ncores, c);
    RowPlanReady(ncores, m0, g, b * ncores, BlockOwner(b), c, 0, b * c, b * c + b);
    var core := new Core(c, plan);
    Matmul(core, ncores, g, WholeOp(g, m0));
    tr := core.trace;
  }
}
