/** dm_matmul.c: the cores copy B into a shared B1, meet at a barrier, and then all but the
    last read B and the last reads the copy. */
module DmMatmul {
  import opened Powers
  import opened MatrixWindow
  import opened Interleaving
  import opened SharedCore
  import opened BlockKernel
  import opened RowOwners

  /** The memory with B copied. */
  function Copied(m0: seq<real>, g: Grid, s1: nat): seq<real> {
    seq(|m0|, (x: nat) requires x < |m0| => if InShared(g, s1, x) then At(m0, g.ob + (x - s1)) else m0[x])
  }

  /** Before the barrier everybody may store what belongs into B1; after it each core has its
      rows of C, and nothing else changes. */
  function CopyPlan(cores: nat, m0: seq<real>, g: Grid, s1: nat, own: int -> nat): Plan {
    Plan(cores, |m0|, (e: nat) => if e == 0 then m0 else Copied(m0, g, s1),
         (e: nat, x: nat) =>
           if e > 0 then RowKind(WholeOp(g, m0), g.n, g.n, own, x)
           else if InShared(g, s1, x) then Broadcast(At(m0, g.ob + (x - s1))) else Frozen)
  }

  /** The plan, point by point. */
  lemma PlanAt(cores: nat, m0: seq<real>, g: Grid, s1: nat, own: int -> nat, e: nat, x: nat)
    ensures var plan := CopyPlan(cores, m0, g, s1, own);
            && plan.size == |m0| == |plan.mem(e)| && plan.mem(0) == m0
            && (e > 0 ==> plan.kind(e, x) == RowKind(WholeOp(g, m0), g.n, g.n, own, x))
            && (InShared(g, s1, x) ==> plan.kind(0, x) == Broadcast(At(m0, g.ob + (x - s1))))
            && (InShared(g, s1, x) && e > 0 && x < |m0| ==> plan.mem(e)[x] == At(m0, g.ob + (x - s1)))
            && (!InShared(g, s1, x) ==> plan.kind(0, x) == Frozen && (x < |m0| ==> plan.mem(e)[x] == m0[x]))
  {
    assert CopyPlan(cores, m0, g, s1, own).mem(e) == if e == 0 then m0 else Copied(m0, g, s1);
  }

  lemma CopyPlanSound(cores: nat, m0: seq<real>, g: Grid, s1: nat, own: int -> nat)
    requires forall r | 0 <= r < g.n :: own(r) < cores
    ensures Sound(CopyPlan(cores, m0, g, s1, own)) &&
            ByRows(CopyPlan(cores, m0, g, s1, own), 1, WholeOp(g, m0), g.n, g.n, own)
  {
    var plan, op := CopyPlan(cores, m0, g, s1, own), WholeOp(g, m0);
    forall e: nat ensures |plan.mem(e)| == plan.size { PlanAt(cores, m0, g, s1, own, e, 0); }
    forall e: nat, x: nat ensures Settled(plan, e, x) {
      hide CopyPlan, WholeOp, At, InShared, Op.In;
      PlanAt(cores, m0, g, s1, own, e, x);
      PlanAt(cores, m0, g, s1, own, e + 1, x);
      assert plan.cores == cores;
    }
    forall x: nat ensures plan.kind(1, x) == RowKind(op, g.n, g.n, own, x) { PlanAt(cores, m0, g, s1, own, 1, x); }
    assert plan.cores == cores;
    hide CopyPlan, RowKind, WholeOp;
  }

  /** The plan where the copying happens. */
  lemma WhereCopied(cores: nat, m0: seq<real>, g: Grid, s1: nat, own: int -> nat, y: nat)
    requires ApartFrom(g, s1, |m0|) && y < g.n * g.n
    ensures var plan := CopyPlan(cores, m0, g, s1, own);
            && plan.size == |m0| && plan.mem(0) == m0 && g.ob + y < |m0| && s1 + y < |m0|
            && plan.kind(0, g.ob + y) == Frozen && plan.kind(0, s1 + y) == Broadcast(m0[g.ob + y])
  {
    hide CopyPlan, RowKind, WholeOp, Copied;
    PlanAt(cores, m0, g, s1, own, 0, g.ob + y);
    PlanAt(cores, m0, g, s1, own, 0, s1 + y);
  }

  /** The plan after the barrier, outside C. */
  lemma WhereRead(cores: nat, m0: seq<real>, g: Grid, s1: nat, own: int -> nat, y: nat)
    requires ApartFrom(g, s1, |m0|) && y < g.n * g.n
    ensures var plan := CopyPlan(cores, m0, g, s1, own);
            && plan.size == |m0| == |plan.mem(1)| && g.oa + y < |m0| && g.ob + y < |m0| && s1 + y < |m0|
            && plan.kind(1, g.oa + y) == plan.kind(1, g.ob + y) == plan.kind(1, s1 + y) == Frozen
            && plan.mem(1)[g.oa + y] == m0[g.oa + y] && plan.mem(1)[g.ob + y] == plan.mem(1)[s1 + y] == m0[g.ob + y]
  {
    var op := WholeOp(g, m0);
    NotInC(g, op, g.oa, y, g.n);
    NotInC(g, op, g.ob, y, g.n);
    NotInC(g, op, s1, y, g.n);
    PlanAt(cores, m0, g, s1, own, 1, g.oa + y);
    PlanAt(cores, m0, g, s1, own, 1, g.ob + y);
    PlanAt(cores, m0, g, s1, own, 1, s1 + y);
    hide Op.In, CopyPlan, WholeOp;
  }

  /** The elements of B1 from lo to hi have been stored. */
  ghost predicate StoredRange(tr: seq<Event>, s1: nat, lo: nat, hi: nat) {
    forall x | s1 + lo <= x < s1 + hi :: HasStored(tr, 0, x)
  }

  lemma StoredOn(tr: seq<Event>, tr': seq<Event>, s1: nat, lo: nat, hi: nat)
    requires tr <= tr' && StoredRange(tr, s1, lo, hi)
    ensures StoredRange(tr', s1, lo, hi)
  {
    forall x | s1 + lo <= x < s1 + hi ensures HasStored(tr', 0, x) { StillStored(tr, tr', 0, x); }
  }

  /** One of the copying loops. */
  method CopyRange(core: Core, g: Grid, s1: nat, lo: nat, hi: nat, ghost m0: seq<real>, ghost own: int -> nat)
    requires core.Valid() && core.epoch == 0 && ApartFrom(g, s1, |m0|) &&
             core.plan == CopyPlan(core.plan.cores, m0, g, s1, own)
    requires lo <= hi <= g.n * g.n
    modifies core`trace, core`mem
    ensures core.Valid() && StoredRange(core.trace, s1, lo, hi)
  {
    hide Core.Valid, HasStored;
    for i := lo to hi
      invariant core.Valid() && StoredRange(core.trace, s1, lo, i)
    {
      CopyOne(core, g, s1, i, m0, own);
    }
  }

  method CopyOne(core: Core, g: Grid, s1: nat, i: nat, ghost m0: seq<real>, ghost own: int -> nat)
    requires core.Valid() && core.epoch == 0 && ApartFrom(g, s1, |m0|) &&
             core.plan == CopyPlan(core.plan.cores, m0, g, s1, own) && i < g.n * g.n
    modifies core`trace, core`mem
    ensures core.Valid() && old(core.trace) <= core.trace && HasStored(core.trace, 0, s1 + i)
    ensures forall lo: nat | lo <= i && StoredRange(old(core.trace), s1, lo, i) ::
              StoredRange(core.trace, s1, lo, i + 1)
  {
    hide *;
    SameSize(core);
    WhereCopied(core.plan.cores, m0, g, s1, own, i);
    ghost var tr := core.trace;
    var v := core.Load(g.ob + i);
    core.Store(s1 + i, v);
    forall lo: nat | lo <= i && StoredRange(tr, s1, lo, i) ensures StoredRange(core.trace, s1, lo, i + 1) {
      StoredOn(tr, core.trace, s1, lo, i);
      OneMoreStored(core.trace, s1, lo, i);
    }
  }

  lemma OneMoreStored(tr: seq<Event>, s1: nat, lo: nat, i: nat)
    requires StoredRange(tr, s1, lo, i) && HasStored(tr, 0, s1 + i)
    ensures StoredRange(tr, s1, lo, i + 1)
  {
    hide HasStored;
  }

  lemma CopyReady(cores: nat, m0: seq<real>, g: Grid, s1: nat, own: int -> nat, id: nat, r0: nat, r1: nat)
    requires ApartFrom(g, s1, |m0|) && g.sk == g.n && g.sj == 1 && r1 <= g.n && forall r | r0 <= r < r1 :: own(r) == id
    ensures Ready(CopyPlan(cores, m0, g, s1, own), id, 1, g, WholeOp(g, m0), r0, r1, 0, g.n)
    ensures Ready(CopyPlan(cores, m0, g, s1, own), id, 1, g.(ob := s1), WholeOp(g, m0), r0, r1, 0, g.n)
  {
    var plan, op, h := CopyPlan(cores, m0, g, s1, own), WholeOp(g, m0), g.(ob := s1);
    forall r: nat, k: nat | r < g.n && k < g.n
      ensures ReadableA(plan, 1, g, op, r, k) && ReadableA(plan, 1, h, op, r, k) && ReadableB(plan, 1, g, op, r, k) &&
              ReadableB(plan, 1, h, op, r, k)
    {
      hide CopyPlan, ApartFrom;
      Inside(g.n, r, k);
      WhereRead(cores, m0, g, s1, own, r * g.n + k);
    }
    forall r: nat, j: nat | r0 <= r < r1 && 0 <= j < g.n
      ensures OwnedC(plan, id, 1, g, r, j) && OwnedC(plan, id, 1, h, r, j)
    {
      hide CopyPlan, Op.Row, Op.Col;
      Inside(g.n, r, j);
      op.RowCol(r, j);
      PlanAt(cores, m0, g, s1, own, 1, g.C(r, j));
    }
    hide ReadableA, ReadableB, OwnedC, CopyPlan;
  }

  // ---- the products

  /** Four rows of C, four columns at a time. */
  method FourRows(core: Core, g: Grid, i: nat, ghost q: nat, ghost op: Op)
    requires core.Valid() && g.n == 4 * q && Ready(core.plan, core.id, core.epoch, g, op, i, i + 4, 0, g.n)
    modifies core`trace, core`mem
    ensures core.Valid() && old(core.trace) <= core.trace && |core.mem| == old(|core.mem|)
    ensures Gains(op, old(core.mem), old(core.mem), core.mem, Rect(op, |core.mem|, i, i + 4, 0, g.n), 0, g.n)
  {
    hide *;
    ghost var s, size, v, tr := core.mem, |core.mem|, 0, core.trace;
    NoRect(op, s, s, i, i + 4, 0, 0, 0, g.n);
    Fours(g.n, q);
    var j := 0;
    while j < g.n / 4 * 4
      invariant j == 4 * v && v <= q && core.Valid() && |core.mem| == size && tr <= core.trace
      invariant Gains(op, s, s, core.mem, Rect(op, size, i, i + 4, 0, j), 0, g.n)
      decreases g.n - j
    {
      ghost var t := core.mem;
      ReadySmaller(core.plan, core.id, core.epoch, g, op, i, i + 4, 0, g.n, i, i + 4, j, j + 4);
      Block(core, g, i, 4, j, 4, 0, g.n, 1, false, false, op);
      ColsAfter(op, s, t, s, t, core.mem, i, i + 4, 0, j, j + 4, 0, g.n);
      j := j + 4;
      v := v + 1;
    }
  }

  lemma Fours(n: nat, q: nat)
    requires n == 4 * q
    ensures n / 4 * 4 == n && (n - 0) % 1 == 0
  {
  }

  /** Rows from `start` up to `end`, four at a time. */
  method Rows(core: Core, g: Grid, start: nat, end: nat, ghost q: nat, ghost p: nat, ghost u: nat, ghost op: Op)
    requires core.Valid() && g.n == 4 * q && start == 4 * p && end == 4 * u && p <= u
    requires Ready(core.plan, core.id, core.epoch, g, op, start, end, 0, g.n)
    modifies core`trace, core`mem
    ensures core.Valid() && old(core.trace) <= core.trace && |core.mem| == old(|core.mem|)
    ensures Gains(op, old(core.mem), old(core.mem), core.mem, Rect(op, |core.mem|, start, end, 0, g.n), 0, g.n)
  {
    hide *;
    ghost var s, size, v, tr := core.mem, |core.mem|, p, core.trace;
    NoRect(op, s, s, start, start, 0, g.n, 0, g.n);
    var i := start;
    while i < end
      invariant i == 4 * v && p <= v <= u && core.Valid() && |core.mem| == size && tr <= core.trace
      invariant Gains(op, s, s, core.mem, Rect(op, size, start, i, 0, g.n), 0, g.n)
      decreases end - i
    {
      ghost var t := core.mem;
      ReadySmaller(core.plan, core.id, core.epoch, g, op, start, end, 0, g.n, i, i + 4, 0, g.n);
      FourRows(core, g, i, q, op);
      RowsAfter(op, s, t, s, t, core.mem, start, i, i + 4, 0, g.n, 0, g.n);
      i := i + 4;
      v := v + 1;
    }
  }

  // ---- the kernel

  /** The last core also has the rows that are left over. */
  function LastOwner(space: nat, ncores: nat): int -> nat {
    (r: int) => if r < 0 || ncores == 0 then 0 else if space == 0 || r / space >= ncores then ncores - 1 else r / space
  }

  function FirstRow(space: nat, id: nat): nat { space * id }

  function EndRow(space: nat, ncores: nat, n: nat, id: nat): nat {
    if id + 1 == ncores then n else space * id + space
  }

  lemma OwnRows(space: nat, ncores: nat, n: nat, id: nat, r: nat)
    requires id < ncores && space * ncores <= n && r < n
    ensures LastOwner(space, ncores)(r) == id <==> FirstRow(space, id) <= r < EndRow(space, ncores, n, id)
    ensures FirstRow(space, id) <= EndRow(space, ncores, n, id) <= n
  {
    ProductMonotone(id + 1, ncores, space);
    assert (id + 1) * space == space * id + space && ncores * space == space * ncores;
    if space > 0 {
      hide Quot, Rem, LastOwner;
      var d := Quot(r, space);
      assert LastOwner(space, ncores)(r) == if d >= ncores then ncores - 1 else d;
      QuotRem(r, space);
      InBlock(space, id, d, r, Rem(r, space));
    }
  }

  lemma InBlock(space: nat, id: nat, d: nat, r: nat, m: nat)
    requires m < space && r == space * d + m
    ensures space * id <= r <==> id <= d
    ensures r < space * id + space <==> d <= id
  {
    if id <= d { ProductMonotone(id, d, space); } else { ProductMonotone(d + 1, id, space); }
    if d <= id { ProductMonotone(d, id, space); } else { ProductMonotone(id + 1, d, space); }
    assert (d + 1) * space == space * d + space && (id + 1) * space == space * id + space &&
           id * space == space * id && d * space == space * d;
  }

  lemma OwnElements(op: Op, size: nat, space: nat, ncores: nat, n: nat, id: nat)
    requires id < ncores && space * ncores <= n
    ensures Mine(op, size, n, n, LastOwner(space, ncores), id) ==
            Rect(op, size, FirstRow(space, id), EndRow(space, ncores, n, id), 0, n)
    ensures forall r | FirstRow(space, id) <= r < EndRow(space, ncores, n, id) :: LastOwner(space, ncores)(r) == id
    ensures FirstRow(space, id) <= EndRow(space, ncores, n, id) <= n
  {
    if n > 0 {
      OwnRows(space, ncores, n, id, 0);
    } else {
      assert space == 0;
    }
    forall x: nat {:trigger op.In(x, 0, n, 0, n)} | x < size
      ensures x in Mine(op, size, n, n, LastOwner(space, ncores), id) <==>
                x in Rect(op, size, FirstRow(space, id), EndRow(space, ncores, n, id), 0, n)
    {
      hide Op.Row, Op.Col, LastOwner, FirstRow, EndRow;
      if op.In(x, 0, n, 0, n) { OwnRows(space, ncores, n, id, op.Row(x)); }
    }
    forall r | FirstRow(space, id) <= r < EndRow(space, ncores, n, id)
      ensures LastOwner(space, ncores)(r) == id
    {
      OwnRows(space, ncores, n, id, r);
    }
  }

  /** What a core stored before the barrier. */
  function CopyFrom(n: nat, ncores: nat, id: nat): nat
    requires ncores > 0
  {
    if id + 1 == ncores then 0 else n * n / ncores
  }

  function CopyTo(n: nat, ncores: nat, id: nat): nat
    requires ncores > 0
  {
    if id + 1 == ncores then n * n / ncores else n * n
  }

  /** The copying part of matmul, with the barrier after it. */
  method Copy(core: Core, ncores: nat, g: Grid, s1: nat, ghost m0: seq<real>, ghost own: int -> nat)
    requires core.Valid() && core.epoch == 0 && core.id < ncores && ApartFrom(g, s1, |m0|) &&
             core.plan == CopyPlan(ncores, m0, g, s1, own)
    modifies core
    ensures core.Valid() && core.epoch == 1 && core.mem == core.plan.mem(1)
    ensures StoredRange(core.trace, s1, CopyFrom(g.n, ncores, core.id), CopyTo(g.n, ncores, core.id))
  {
    var lda := g.n;
    CutWithin(lda * lda, ncores);
    if core.id == ncores - 1 {
      CopyRange(core, g, s1, 0, lda * lda / ncores, m0, own);
    } else {
      CopyRange(core, g, s1, lda * lda / ncores, lda * lda, m0, own);
    }
    NoneOwned(ncores, m0, g, s1, own, core.id);
    ghost var tr := core.trace;
    hide *;
    core.Barrier();
    StoredOn(tr, core.trace, s1, CopyFrom(g.n, ncores, core.id), CopyTo(g.n, ncores, core.id));
  }

  lemma CutWithin(z: nat, ncores: nat)
    requires ncores > 0
    ensures 0 <= z / ncores <= z
  {
    if z / ncores > z { ProductMonotone(1, ncores, z / ncores); }
  }

  lemma NoneOwned(ncores: nat, m0: seq<real>, g: Grid, s1: nat, own: int -> nat, id: nat)
    ensures forall x | 0 <= x < |m0| :: CopyPlan(ncores, m0, g, s1, own).kind(0, x) != Owned(id)
    ensures CopyPlan(ncores, m0, g, s1, own).size == |m0|
  {
    forall x | 0 <= x < |m0|
      ensures CopyPlan(ncores, m0, g, s1, own).kind(0, x) != Owned(id)
    {
      PlanAt(ncores, m0, g, s1, own, 0, x);
    }
  }

  /** matmul on one core. */
  method Matmul(core: Core, ncores: nat, g: Grid, s1: nat, ghost q: nat, ghost p: nat, ghost m0: seq<real>)
    requires core.Valid() && core.epoch == 0 && core.id < ncores && ApartFrom(g, s1, |m0|) && g.sk == g.n && g.sj == 1
    requires g.n == 4 * q && g.n / ncores == 4 * p
    requires core.plan == CopyPlan(ncores, m0, g, s1, LastOwner(g.n / ncores, ncores))
    modifies core
    ensures var plan, op, own := core.plan, WholeOp(g, m0), LastOwner(g.n / ncores, ncores);
            Worked(plan, core.id, core.trace, 1, op, plan.mem(1), g.n, g.n, own)
    ensures StoredRange(core.trace, s1, CopyFrom(g.n, ncores, core.id), CopyTo(g.n, ncores, core.id))
  {
    hide Core.Valid, Ready, Gains, Mine, Rect, ApartFrom, CopyPlan, StoredRange;
    var lda := g.n;
    var space := lda / ncores;
    var max := space * core.id + space;
    ghost var op, own := WholeOp(g, m0), LastOwner(space, ncores);
    Copy(core, ncores, g, s1, m0, own);
    ghost var tr := core.trace;
    assert space * ncores <= lda;
    SameSize(core);
    OwnElements(op, |core.mem|, space, ncores, lda, core.id);
    CopyReady(ncores, m0, g, s1, own, core.id, space * core.id, EndRow(space, ncores, lda, core.id));
    Quarters(lda, max, core.id, q, p);
    if core.id != ncores - 1 {
      Rows(core, g, space * core.id, max / 4 * 4, q, p * core.id, p * core.id + p, op);
    } else {
      Rows(core, g.(ob := s1), space * core.id, lda / 4 * 4, q, p * core.id, q, op);
    }
    StoredOn(tr, core.trace, s1, CopyFrom(g.n, ncores, core.id), CopyTo(g.n, ncores, core.id));
    HasWorked(core, 1, op, core.plan.mem(1), lda, lda, own);
  }

  lemma Quarters(n: nat, max: nat, id: nat, q: nat, p: nat)
    requires n == 4 * q && max == 4 * p * id + 4 * p
    ensures n / 4 * 4 == n && max / 4 * 4 == max && 4 * p * id == 4 * (p * id) && max == 4 * (p * id + p)
  {
    assert 4 * p * id == 4 * (p * id);
  }

  // ---- all cores

  lemma AllStored(cores: nat, m0: seq<real>, g: Grid, s1: nat, own: int -> nat, ts: seq<seq<Event>>)
    requires |ts| == cores > 0 &&
             forall c | 0 <= c < cores :: StoredRange(ts[c], s1, CopyFrom(g.n, cores, c), CopyTo(g.n, cores, c))
    ensures Filled(CopyPlan(cores, m0, g, s1, own), ts, 0)
  {
    var plan := CopyPlan(cores, m0, g, s1, own);
    forall x: nat | x < plan.size && plan.kind(0, x).Broadcast? ensures AnyStored(ts, 0, x) {
      hide HasStored, CopyPlan;
      PlanAt(cores, m0, g, s1, own, 0, x);
      var c := if x < s1 + g.n * g.n / cores then cores - 1 else 0;
      assert StoredRange(ts[c], s1, CopyFrom(g.n, cores, c), CopyTo(g.n, cores, c));
      if c == 0 && cores == 1 { assert g.n * g.n / cores == g.n * g.n; }
      assert HasStored(ts[c], 0, x) by { hide HasStored, CopyPlan; }
    }
  }

  lemma PlanReady(ncores: nat, m0: seq<real>, g: Grid, s1: nat)
    requires ncores > 0
    ensures var own := LastOwner(g.n / ncores, ncores); var plan := CopyPlan(ncores, m0, g, s1, own);
            && Sound(plan) && ByRows(plan, 1, WholeOp(g, m0), g.n, g.n, own)
            && plan.size == |m0| && plan.cores == ncores && plan.mem(0) == m0
  {
    var own := LastOwner(g.n / ncores, ncores);
    CopyPlanSound(ncores, m0, g, s1, own);
    PlanAt(ncores, m0, g, s1, own, 0, 0);
    hide CopyPlan;
  }

  /** All cores run matmul on the memory m0.  In every interleaving the copy is complete when
      it is read, and C ends with the product added. */
  method MatmulAll(ncores: nat, m0: seq<real>, g: Grid, s1: nat, ghost q: nat, ghost p: nat)
    returns (ghost ts: seq<seq<Event>>)
    requires ncores > 0 && g.n == 4 * q && g.n / ncores == 4 * p && ApartFrom(g, s1, |m0|) && g.sk == g.n && g.sj == 1
    ensures |ts| == ncores
    ensures var plan := CopyPlan(ncores, m0, g, s1, LastOwner(g.n / ncores, ncores));
            plan.mem(0) == m0 && Team(plan, ts, 1) && Correct(plan, ts, 1, WholeOp(g, m0), plan.mem(1), g.n, g.n)
  {
    hide *;
    var plan := CopyPlan(ncores, m0, g, s1, LastOwner(g.n / ncores, ncores));
    ghost var own, op := LastOwner(g.n / ncores, ncores), WholeOp(g, m0);
    PlanReady(ncores, m0, g, s1);
    ts := [];
    for c := 0 to ncores
      invariant |ts| == c && forall d | 0 <= d < c :: Worked(plan, d, ts[d], 1, op, plan.mem(1), g.n, g.n, own)
      invariant forall d | 0 <= d < c :: StoredRange(ts[d], s1, CopyFrom(g.n, ncores, d), CopyTo(g.n, ncores, d))
    {
      var tr := MatmulOne(ncores, m0, g, s1, c, plan, q, p);
      ts := ts + [tr];
    }
    AllStored(ncores, m0, g, s1, own, ts);
    DmTeam(plan, ts, op, g.n, own);
  }

  method MatmulOne(ncores: nat, m0: seq<real>, g: Grid, s1: nat, c: nat, plan: Plan, ghost q: nat, ghost p: nat)
    returns (ghost tr: seq<Event>)
    requires c < ncores && g.n == 4 * q && g.n / ncores == 4 * p && ApartFrom(g, s1, |m0|) && g.sk == g.n && g.sj == 1
    requires plan == CopyPlan(ncores, m0, g, s1, LastOwner(g.n / ncores, ncores)) && Sound(plan)
    ensures Worked(plan, c, tr, 1, WholeOp(g, m0), plan.mem(1), g.n, g.n, LastOwner(g.n / ncores, ncores))
    ensures StoredRange(tr, s1, CopyFrom(g.n, ncores, c), CopyTo(g.n, ncores, c))
  {
    hide *;
    var core := new Core(c, plan);
    Matmul(core, ncores, g, s1, q, p, m0);
    tr := core.trace;
  }

  lemma DmTeam(plan: Plan, ts: seq<seq<Event>>, op: Op, n: nat, own: int -> nat)
    requires Sound(plan) && |ts| == plan.cores > 0 && Filled(plan, ts, 0) && ByRows(plan, 1, op, n, n, own)
    requires forall c | 0 <= c < |ts| :: Worked(plan, c, ts[c], 1, op, plan.mem(1), n, n, own)
    ensures Team(plan, ts, 1) && Correct(plan, ts, 1, op, plan.mem(1), n, n)
  {
    forall c | 0 <= c < |ts| ensures Follows(plan, c, ts[c]) && Epoch(ts[c]) == 1 {
      assert Worked(plan, c, ts[c], 1, op, plan.mem(1), n, n, own);
    }
    AnyInterleaving(plan, ts, 1, op, plan.mem(1), n, n, own);
  }
}
