/** ae_matmul.c: the cores transpose B into a shared BB, column by column with a barrier
    after each, and then compute C from BB, with a barrier after every four elements. */
module AeMatmul {
  import opened Powers
  import opened MatrixWindow
  import opened Interleaving
  import opened SharedCore
  import opened BlockKernel
  import opened RowOwners

  /** How many times a core has gone through the compute loops when it reaches the element at
      row r and column q. */
  function Turn(b: nat, r: nat, q: nat): nat
    requires b > 0
  {
    Quot(q, 4) * b + Rem(r, b)
  }

  /** The row and the column of BB that position x holds. */
  function BRow(g: Grid, s1: nat, x: nat): (r: nat)
    requires InShared(g, s1, x)
    ensures g.n > 0 && r < g.n
  {
    SharedParts(g, s1, x);
    Quot(x - s1, g.n)
  }

  function BCol(g: Grid, s1: nat, x: nat): (k: nat)
    requires InShared(g, s1, x)
    ensures g.n > 0 && k < g.n
  {
    SharedParts(g, s1, x);
    Rem(x - s1, g.n)
  }

  lemma SharedParts(g: Grid, s1: nat, x: nat)
    requires InShared(g, s1, x)
    ensures g.n > 0 && Quot(x - s1, g.n) < g.n && x == s1 + Quot(x - s1, g.n) * g.n + Rem(x - s1, g.n)
  {
    var y := x - s1;
    QuotRem(y, g.n);
    if Quot(y, g.n) >= g.n { ProductMonotone(g.n, Quot(y, g.n), g.n); }
  }

  /** The value of x after e barriers: column k of BB is filled in epoch k, and then C, in
      the order of the turns. */
  function ValueAt(m0: seq<real>, g: Grid, s1: nat, b: nat, e: nat, x: nat): real
    requires b > 0
  {
    var op := WholeOp(g, m0);
    if InShared(g, s1, x) && BCol(g, s1, x) < e then At(m0, g.ob + BCol(g, s1, x) * g.n + BRow(g, s1, x))
    else if op.In(x, 0, g.n, 0, g.n) && g.n + Turn(b, op.Row(x), op.Col(x)) < e then op.Gain(x, 0, g.n)
    else At(m0, x)
  }

  function KindAt(m0: seq<real>, g: Grid, s1: nat, b: nat, e: nat, x: nat): Kind
    requires b > 0
  {
    var op := WholeOp(g, m0);
    if op.In(x, 0, g.n, 0, g.n) then Owned(Quot(op.Row(x), b))
    else if InShared(g, s1, x) && BCol(g, s1, x) == e then Owned(Quot(BRow(g, s1, x), b))
    else Frozen
  }

  function AePlan(cores: nat, m0: seq<real>, g: Grid, s1: nat, b: nat): Plan
    requires b > 0
  {
    Plan(cores, |m0|, (e: nat) => seq(|m0|, (x: nat) => ValueAt(m0, g, s1, b, e, x)),
         (e: nat, x: nat) => KindAt(m0, g, s1, b, e, x))
  }

  lemma PlanAt(cores: nat, m0: seq<real>, g: Grid, s1: nat, b: nat, e: nat, x: nat)
    requires b > 0
    ensures var plan := AePlan(cores, m0, g, s1, b);
            && plan.size == |m0| == |plan.mem(e)| && plan.cores == cores
            && plan.kind(e, x) == KindAt(m0, g, s1, b, e, x) &&
               (x < |m0| ==> plan.mem(e)[x] == ValueAt(m0, g, s1, b, e, x))
  {
    assert AePlan(cores, m0, g, s1, b).mem(e) == seq(|m0|, (x: nat) => ValueAt(m0, g, s1, b, e, x));
  }

  /** The whole of what is assumed: b rows of C to a core. */
  ghost predicate Setting(cores: nat, g: Grid, s1: nat, b: nat, size: nat) {
    cores > 0 && b > 0 && g.n == b * cores && ApartFrom(g, s1, size) && g.sk == g.n && g.sj == 1
  }

  lemma RowOwner(r: nat, b: nat, cores: nat)
    requires b > 0 && r < b * cores
    ensures Quot(r, b) < cores
  {
    if r / b >= cores { ProductMonotone(cores, r / b, b); }
  }

  lemma AeSettled(cores: nat, m0: seq<real>, g: Grid, s1: nat, b: nat, e: nat, x: nat)
    requires Setting(cores, g, s1, b, |m0|)
    ensures Settled(AePlan(cores, m0, g, s1, b), e, x)
  {
    hide AePlan, ValueAt, KindAt;
    PlanAt(cores, m0, g, s1, b, e, x);
    PlanAt(cores, m0, g, s1, b, e + 1, x);
    if KindAt(m0, g, s1, b, e, x) == Frozen {
      FrozenStays(m0, g, s1, b, e, x);
    } else {
      KindInRange(cores, m0, g, s1, b, e, x);
    }
  }

  lemma FrozenStays(m0: seq<real>, g: Grid, s1: nat, b: nat, e: nat, x: nat)
    requires b > 0 && KindAt(m0, g, s1, b, e, x) == Frozen
    ensures ValueAt(m0, g, s1, b, e, x) == ValueAt(m0, g, s1, b, e + 1, x)
  {
    hide InShared, BRow, BCol, Op.In, Op.Row, Op.Col, Op.Gain, At, Turn, Quot;
  }

  lemma KindInRange(cores: nat, m0: seq<real>, g: Grid, s1: nat, b: nat, e: nat, x: nat)
    requires Setting(cores, g, s1, b, |m0|) && KindAt(m0, g, s1, b, e, x) != Frozen
    ensures KindAt(m0, g, s1, b, e, x).Owned? && KindAt(m0, g, s1, b, e, x).core < cores
  {
    hide InShared, BRow, BCol, ApartFrom, Quot;
    var op := WholeOp(g, m0);
    if op.In(x, 0, g.n, 0, g.n) { RowOwner(op.Row(x), b, cores); } else { RowOwner(BRow(g, s1, x), b, cores); }
  }

  lemma AeSound(cores: nat, m0: seq<real>, g: Grid, s1: nat, b: nat)
    requires Setting(cores, g, s1, b, |m0|)
    ensures Sound(AePlan(cores, m0, g, s1, b))
  {
    forall e: nat ensures |AePlan(cores, m0, g, s1, b).mem(e)| == |m0| { PlanAt(cores, m0, g, s1, b, e, 0); }
    forall e: nat, x: nat ensures Settled(AePlan(cores, m0, g, s1, b), e, x) { AeSettled(cores, m0, g, s1, b, e, x); }
    assert AePlan(cores, m0, g, s1, b).size == |m0|;
  }

  lemma NothingYet(m0: seq<real>, g: Grid, s1: nat, b: nat, x: nat)
    requires b > 0
    ensures ValueAt(m0, g, s1, b, 0, x) == At(m0, x)
  {
  }

  /** The plan starts from the memory given. */
  lemma AeStart(cores: nat, m0: seq<real>, g: Grid, s1: nat, b: nat)
    requires b > 0
    ensures AePlan(cores, m0, g, s1, b).mem(0) == m0
  {
    PlanAt(cores, m0, g, s1, b, 0, 0);
    forall x | 0 <= x < |m0| ensures AePlan(cores, m0, g, s1, b).mem(0)[x] == m0[x] {
      PlanAt(cores, m0, g, s1, b, 0, x);
      NothingYet(m0, g, s1, b, x);
      hide AePlan, ValueAt;
    }
  }

  // ---- the transpose

  /** Rows from lo to i of column k of BB are filled, and the rest is as at the last barrier. */
  ghost predicate ColumnDone(mem: seq<real>, m0: seq<real>, g: Grid, s1: nat, b: nat, k: nat, lo: nat, i: nat)
    requires b > 0
  {
    |mem| == |m0| && forall x | 0 <= x < |mem| ::
      mem[x] == ValueAt(m0, g, s1, b, if InColumn(g, s1, k, lo, i, x) then k + 1 else k, x)
  }

  predicate InColumn(g: Grid, s1: nat, k: nat, lo: nat, i: nat, x: nat) {
    InShared(g, s1, x) && BCol(g, s1, x) == k && lo <= BRow(g, s1, x) < i
  }

  lemma ColumnNext(mem: seq<real>, m0: seq<real>, g: Grid, s1: nat, b: nat, k: nat, lo: nat, i: nat, x0: nat, v: real)
    requires b > 0 && k < g.n && lo <= i < g.n && ColumnDone(mem, m0, g, s1, b, k, lo, i) &&
             x0 == s1 + i * g.n + k < |mem|
    requires v == At(m0, g.ob + k * g.n + i)
    ensures ColumnDone(mem[x0 := v], m0, g, s1, b, k, lo, i + 1)
  {
    ColumnElement(g, s1, k, i);
    assert ValueAt(m0, g, s1, b, k + 1, x0) == v;
    forall x {:trigger mem[x]} | 0 <= x < |mem|
      ensures mem[x0 := v][x] == ValueAt(m0, g, s1, b, if InColumn(g, s1, k, lo, i + 1, x) then k + 1 else k, x)
    {
      if InColumn(g, s1, k, i, i + 1, x) { SharedParts(g, s1, x); }
      assert InColumn(g, s1, k, lo, i + 1, x) <==> InColumn(g, s1, k, lo, i, x) || x == x0 by { hide InShared; }
      hide InShared, ValueAt, InColumn;
    }
  }

  lemma ColumnElement(g: Grid, s1: nat, k: nat, i: nat)
    requires k < g.n && i < g.n
    ensures var x := s1 + i * g.n + k; InShared(g, s1, x) && BCol(g, s1, x) == k && BRow(g, s1, x) == i
  {
    Inside(g.n, i, k);
    QuotRemUnique(i * g.n + k, g.n, i, k);
  }

  lemma ColumnStart(cores: nat, m0: seq<real>, g: Grid, s1: nat, b: nat, k: nat, lo: nat)
    requires b > 0
    ensures ColumnDone(AePlan(cores, m0, g, s1, b).mem(k), m0, g, s1, b, k, lo, lo)
  {
    hide AePlan, ValueAt;
    PlanAt(cores, m0, g, s1, b, k, 0);
    forall x | 0 <= x < |m0|
      ensures AePlan(cores, m0, g, s1, b).mem(k)[x] == ValueAt(m0, g, s1, b, k, x)
    {
      PlanAt(cores, m0, g, s1, b, k, x);
    }
  }

  /** Core id's rows. */
  predicate Share(b: nat, id: nat, lo: nat, hi: nat) { lo == id * b && hi == lo + b }

  lemma SameRow(b: nat, id: nat, lo: nat, hi: nat, r: nat)
    requires b > 0 && Share(b, id, lo, hi)
    ensures Quot(r, b) == id <==> lo <= r < hi
  {
    QuotRem(r, b);
    hide Quot;
    if lo <= r < hi { QuotRemUnique(r, b, id, r - lo); }
  }

  lemma ShareInside(cores: nat, g: Grid, b: nat, id: nat, lo: nat, hi: nat)
    requires id < cores && g.n == b * cores && Share(b, id, lo, hi)
    ensures lo <= hi <= g.n
  {
    ProductMonotone(id + 1, cores, b);
    assert (id + 1) * b == id * b + b && cores * b == b * cores;
  }

  /** A core's part of column k is done, so it may come to the barrier. */
  lemma ColumnSync(cores: nat, m0: seq<real>, g: Grid, s1: nat, b: nat, id: nat, lo: nat, hi: nat, k: nat,
                   mem: seq<real>)
    requires Setting(cores, g, s1, b, |m0|) && k < g.n && Share(b, id, lo, hi) &&
             ColumnDone(mem, m0, g, s1, b, k, lo, hi)
    ensures var plan := AePlan(cores, m0, g, s1, b);
            |mem| == plan.size == |plan.mem(k + 1)| &&
              forall x | 0 <= x < |mem| && plan.kind(k, x) == Owned(id) :: mem[x] == plan.mem(k + 1)[x]
  {
    var plan := AePlan(cores, m0, g, s1, b);
    PlanAt(cores, m0, g, s1, b, k + 1, 0);
    forall x | 0 <= x < |mem| && plan.kind(k, x) == Owned(id) ensures mem[x] == plan.mem(k + 1)[x] {
      PlanAt(cores, m0, g, s1, b, k, x);
      PlanAt(cores, m0, g, s1, b, k + 1, x);
      OwnedColumn(cores, m0, g, s1, b, id, lo, hi, k, x);
      hide AePlan, ValueAt, KindAt, Setting, InColumn;
    }
  }

  lemma OwnedColumn(cores: nat, m0: seq<real>, g: Grid, s1: nat, b: nat, id: nat, lo: nat, hi: nat, k: nat, x: nat)
    requires Setting(cores, g, s1, b, |m0|) && k < g.n && Share(b, id, lo, hi) &&
             KindAt(m0, g, s1, b, k, x) == Owned(id)
    ensures InColumn(g, s1, k, lo, hi, x) || ValueAt(m0, g, s1, b, k, x) == ValueAt(m0, g, s1, b, k + 1, x)
  {
    if InShared(g, s1, x) {
      NotShared(g, s1, |m0|, x);
      SameRow(b, id, lo, hi, BRow(g, s1, x));
      assert InColumn(g, s1, k, lo, hi, x) by { hide BRow, BCol, Quot, InShared; }
    } else {
      hide Op.In, Op.Row, Op.Col, Op.Gain, Turn, At, WholeOp;
    }
  }

  /** BB is no part of C. */
  lemma NotShared(g: Grid, s1: nat, size: nat, x: nat)
    requires ApartFrom(g, s1, size) && InShared(g, s1, x)
    ensures forall m0: seq<real> :: !WholeOp(g, m0).In(x, 0, g.n, 0, g.n)
  {
    forall m0: seq<real> ensures !WholeOp(g, m0).In(x, 0, g.n, 0, g.n) { NotInC(g, WholeOp(g, m0), s1, x - s1, g.n); }
  }

  /** One element read and stored elsewhere. */
  method CopyElement(core: Core, src: nat, dst: nat)
    requires core.Valid() && src < |core.mem| && dst < |core.mem| && src < |core.plan.mem(core.epoch)|
    requires core.plan.kind(core.epoch, src) == Frozen && core.plan.kind(core.epoch, dst) == Owned(core.id)
    modifies core`trace, core`mem
    ensures core.Valid() && core.mem == old(core.mem)[dst := core.plan.mem(core.epoch)[src]]
  {
    var v := core.Load(src);
    core.Store(dst, v);
  }

  /** One element of BB. */
  method TransposeOne(core: Core, g: Grid, s1: nat, b: nat, lo: nat, hi: nat, k: nat, i: nat, ghost cores: nat,
                      ghost m0: seq<real>)
    requires core.Valid() && core.epoch == k < g.n && Setting(cores, g, s1, b, |m0|) &&
             core.plan == AePlan(cores, m0, g, s1, b)
    requires Share(b, core.id, lo, hi) && lo <= i < hi <= g.n && b > 0 && ColumnDone(core.mem, m0, g, s1, b, k, lo, i)
    modifies core`trace, core`mem
    ensures core.Valid() && ColumnDone(core.mem, m0, g, s1, b, k, lo, i + 1)
  {
    hide *;
    SameRow(b, core.id, lo, hi, i);
    ghost var mem := core.mem;
    SameSize(core);
    var src, dst := WhereTransposed(cores, m0, g, s1, b, core.id, k, i);
    CopyElement(core, g.ob + k * g.n + i, s1 + i * g.n + k);
    ColumnNext(mem, m0, g, s1, b, k, lo, i, dst, At(m0, g.ob + k * g.n + i));
  }

  lemma WhereTransposed(cores: nat, m0: seq<real>, g: Grid, s1: nat, b: nat, id: nat, k: nat, i: nat)
    returns (src: nat, dst: nat)
    requires Setting(cores, g, s1, b, |m0|) && k < g.n && i < g.n && b > 0 && Quot(i, b) == id
    ensures src == g.ob + k * g.n + i && dst == s1 + i * g.n + k
    ensures var plan := AePlan(cores, m0, g, s1, b);
            && plan.size == |m0| == |plan.mem(k)| && src < |m0| && dst < |m0|
            && plan.kind(k, src) == Frozen && plan.mem(k)[src] == At(m0, src) && plan.kind(k, dst) == Owned(id)
  {
    hide *;
    src, dst := g.ob + k * g.n + i, s1 + i * g.n + k;
    Inside(g.n, k, i);
    ColumnElement(g, s1, k, i);
    WhereFrozen(cores, m0, g, s1, b, k, k * g.n + i);
    WhereFilled(cores, m0, g, s1, b, k, dst);
  }

  /** A and B stay as they are all the time. */
  lemma WhereFrozen(cores: nat, m0: seq<real>, g: Grid, s1: nat, b: nat, e: nat, y: nat)
    requires Setting(cores, g, s1, b, |m0|) && y < g.n * g.n
    ensures var plan := AePlan(cores, m0, g, s1, b);
            && plan.size == |m0| == |plan.mem(e)| && g.oa + y < |m0| && g.ob + y < |m0|
            && plan.kind(e, g.oa + y) == plan.kind(e, g.ob + y) == Frozen
            && plan.mem(e)[g.oa + y] == At(m0, g.oa + y) && plan.mem(e)[g.ob + y] == At(m0, g.ob + y)
  {
    PlanAt(cores, m0, g, s1, b, e, g.oa + y);
    PlanAt(cores, m0, g, s1, b, e, g.ob + y);
    NotInC(g, WholeOp(g, m0), g.oa, y, g.n);
    NotInC(g, WholeOp(g, m0), g.ob, y, g.n);
    assert !InShared(g, s1, g.oa + y) && !InShared(g, s1, g.ob + y);
    hide Op.In, AePlan, InShared, ApartFrom, At;
  }

  lemma WhereFilled(cores: nat, m0: seq<real>, g: Grid, s1: nat, b: nat, k: nat, x: nat)
    requires Setting(cores, g, s1, b, |m0|) && InShared(g, s1, x) && BCol(g, s1, x) == k
    ensures x < |m0| && AePlan(cores, m0, g, s1, b).kind(k, x) == Owned(Quot(BRow(g, s1, x), b))
  {
    NotShared(g, s1, |m0|, x);
    PlanAt(cores, m0, g, s1, b, k, x);
    assert x < |m0|;
    hide Op.In, AePlan, InShared, ApartFrom, BRow, BCol, Quot;
  }

  /** One column of BB, and the barrier after it. */
  method TransposeColumn(core: Core, g: Grid, s1: nat, b: nat, lo: nat, hi: nat, k: nat, ghost cores: nat,
                         ghost m0: seq<real>)
    requires core.Valid() && core.epoch == k < g.n && Setting(cores, g, s1, b, |m0|) &&
             core.plan == AePlan(cores, m0, g, s1, b)
    requires Share(b, core.id, lo, hi) && lo <= hi <= g.n && b > 0 && core.mem == core.plan.mem(k)
    modifies core
    ensures core.Valid() && core.epoch == k + 1 && core.mem == core.plan.mem(k + 1)
  {
    hide *;
    ColumnStart(cores, m0, g, s1, b, k, lo);
    var i := lo;
    while i < hi
      invariant lo <= i <= hi && core.Valid() && core.epoch == k && ColumnDone(core.mem, m0, g, s1, b, k, lo, i)
    {
      TransposeOne(core, g, s1, b, lo, hi, k, i, cores, m0);
      i := i + 1;
    }
    ColumnSync(cores, m0, g, s1, b, core.id, lo, hi, k, core.mem);
    core.Barrier();
  }

  // ---- the products

  /** B is read from BB. */
  function FromShared(g: Grid, s1: nat): Grid { Grid(g.n, g.oa, g.oc, s1, 1, g.n) }

  lemma WhereProduct(cores: nat, m0: seq<real>, g: Grid, s1: nat, b: nat, e: nat, k: nat, j: nat)
    requires Setting(cores, g, s1, b, |m0|) && g.n <= e && k < g.n && j < g.n
    ensures ReadableB(AePlan(cores, m0, g, s1, b), e, FromShared(g, s1), WholeOp(g, m0), k, j)
  {
    var x := s1 + j * g.n + k;
    ColumnElement(g, s1, k, j);
    NotShared(g, s1, |m0|, x);
    PlanAt(cores, m0, g, s1, b, e, x);
    assert ValueAt(m0, g, s1, b, e, x) == At(m0, g.ob + k * g.n + j) &&
           KindAt(m0, g, s1, b, e, x) == Frozen by { hide Op.In, BRow, BCol, At, InShared; }
    assert x < |m0| && FromShared(g, s1).B(k, j) == x;
    hide AePlan, ValueAt, KindAt, InShared, BRow, BCol, At;
  }

  lemma ComputeReady(cores: nat, m0: seq<real>, g: Grid, s1: nat, b: nat, id: nat, lo: nat, hi: nat, e: nat, r0: nat)
    requires Setting(cores, g, s1, b, |m0|) && g.n <= e && Share(b, id, lo, hi) && lo <= r0 < hi <= g.n
    ensures Ready(AePlan(cores, m0, g, s1, b), id, e, FromShared(g, s1), WholeOp(g, m0), r0, r0 + 1, 0, g.n)
  {
    var plan, op, h := AePlan(cores, m0, g, s1, b), WholeOp(g, m0), FromShared(g, s1);
    forall r: nat, k: nat | r < g.n && k < g.n ensures ReadableA(plan, e, h, op, r, k) {
      Inside(g.n, r, k);
      WhereFrozen(cores, m0, g, s1, b, e, r * g.n + k);
      hide AePlan, At, Setting;
    }
    forall k: nat, j: nat | k < g.n && j < g.n
      ensures ReadableB(plan, e, h, op, k, j)
    {
      WhereProduct(cores, m0, g, s1, b, e, k, j);
    }
    forall r: nat, j: nat | r0 <= r < r0 + 1 && 0 <= j < g.n ensures OwnedC(plan, id, e, h, r, j) {
      Inside(g.n, r, j);
      op.RowCol(r, j);
      SameRow(b, id, lo, hi, r);
      PlanAt(cores, m0, g, s1, b, e, h.C(r, j));
      hide AePlan, Op.Row, Op.Col, Quot, Share;
    }
    hide ReadableA, ReadableB, OwnedC, AePlan;
  }

  /** The core is in its t-th turn: row j of its rows from lo, in the columns from 4*v. */
  predicate TurnIs(b: nat, v: nat, j: nat, lo: nat, t: nat) { j >= lo && t == v * b + (j - lo) }

  lemma NextTurn(b: nat, v: nat, j: nat, lo: nat, hi: nat, id: nat, t: nat)
    requires TurnIs(b, v, j, lo, t)
    ensures TurnIs(b, v, j + 1, lo, t + 1)
    ensures Share(b, id, lo, hi) && j == hi ==> TurnIs(b, v + 1, lo, lo, t)
  {
    assert (v + 1) * b == v * b + b;
  }

  /** Among a core's elements, those of turn t are four in one row. */
  lemma TurnOf(b: nat, id: nat, lo: nat, hi: nat, v: nat, j: nat, r: nat, q: nat)
    requires b > 0 && Share(b, id, lo, hi) && lo <= j < hi && lo <= r < hi
    ensures Turn(b, r, q) == v * b + (j - lo) <==> r == j && 4 * v <= q < 4 * v + 4
  {
    hide Quot, Rem;
    QuotRemUnique(r, b, id, r - lo);
    QuotRem(q, 4);
    QuotRemUnique(Turn(b, r, q), b, Quot(q, 4), r - lo);
    QuotRemUnique(v * b + (j - lo), b, v, j - lo);
    if 4 * v <= q < 4 * v + 4 { QuotRemUnique(q, 4, v, q - 4 * v); }
  }

  lemma TurnValue(m0: seq<real>, g: Grid, s1: nat, b: nat, t: nat, x: nat)
    requires b > 0 && ApartFrom(g, s1, |m0|) && WholeOp(g, m0).In(x, 0, g.n, 0, g.n)
    ensures var op := WholeOp(g, m0);
            ValueAt(m0, g, s1, b, g.n + t, x) == if Turn(b, op.Row(x), op.Col(x)) < t then op.Gain(x, 0, g.n)
              else At(m0, x)
  {
    hide Op.In, Op.Row, Op.Col, Op.Gain, Turn, InShared;
    if InShared(g, s1, x) { NotShared(g, s1, |m0|, x); }
  }

  lemma TurnSync(cores: nat, m0: seq<real>, g: Grid, s1: nat, b: nat, id: nat, lo: nat, hi: nat, v: nat, j: nat,
                 t: nat, mem: seq<real>)
    requires Setting(cores, g, s1, b, |m0|) && Share(b, id, lo, hi) && lo <= j < hi && TurnIs(b, v, j, lo, t)
    requires Gains(WholeOp(g, m0), Zeros(|m0|), AePlan(cores, m0, g, s1, b).mem(g.n + t), mem,
                   Rect(WholeOp(g, m0), |m0|, j, j + 1, 4 * v, 4 * v + 4), 0, g.n)
    requires 4 * v + 4 <= g.n
    ensures var plan, e := AePlan(cores, m0, g, s1, b), g.n + t;
            |mem| == plan.size == |plan.mem(e + 1)| &&
              forall x | 0 <= x < |mem| && plan.kind(e, x) == Owned(id) :: mem[x] == plan.mem(e + 1)[x]
  {
    var plan, e := AePlan(cores, m0, g, s1, b), g.n + t;
    PlanAt(cores, m0, g, s1, b, e, 0);
    PlanAt(cores, m0, g, s1, b, e + 1, 0);
    forall x | 0 <= x < |mem| && plan.kind(e, x) == Owned(id) ensures mem[x] == plan.mem(e + 1)[x] {
      PlanAt(cores, m0, g, s1, b, e, x);
      PlanAt(cores, m0, g, s1, b, e + 1, x);
      TurnElement(cores, m0, g, s1, b, id, lo, hi, v, j, t, x);
      hide AePlan, ValueAt, KindAt, Setting, Op.Gain, Rect, WholeOp;
    }
  }

  lemma TurnElement(cores: nat, m0: seq<real>, g: Grid, s1: nat, b: nat, id: nat, lo: nat, hi: nat, v: nat, j: nat,
                    t: nat, x: nat)
    requires Setting(cores, g, s1, b, |m0|) && Share(b, id, lo, hi) && lo <= j < hi && TurnIs(b, v, j, lo, t) &&
             x < |m0|
    requires KindAt(m0, g, s1, b, g.n + t, x) == Owned(id)
    ensures var op := WholeOp(g, m0);
            ValueAt(m0, g, s1, b, g.n + t + 1, x) ==
            if x in Rect(op, |m0|, j, j + 1, 4 * v, 4 * v + 4) then op.Gain(x, 0, g.n)
              else ValueAt(m0, g, s1, b, g.n + t, x)
  {
    var op := WholeOp(g, m0);
    assert op.In(x, 0, g.n, 0, g.n) && Quot(op.Row(x), b) == id by { hide Op.In, Op.Row, Quot; }
    SameRow(b, id, lo, hi, op.Row(x));
    TurnOf(b, id, lo, hi, v, j, op.Row(x), op.Col(x));
    TurnValue(m0, g, s1, b, t, x);
    TurnValue(m0, g, s1, b, t + 1, x);
    assert x in Rect(op, |m0|, j, j + 1, 4 * v, 4 * v + 4) <==> op.Row(x) == j && 4 * v <= op.Col(x) < 4 * v + 4;
    hide Rect, Op.In, Op.Row, Op.Col, Op.Gain, ValueAt, KindAt, Turn, Setting;
  }

  /** Four elements of row j, and the barrier after them. */
  method TurnOne(core: Core, g: Grid, s1: nat, b: nat, i: nat, j: nat, ghost lo: nat, ghost hi: nat, ghost v: nat,
                 ghost t: nat, ghost q: nat, ghost cores: nat, ghost m0: seq<real>)
    requires core.Valid() && core.epoch == g.n + t && Setting(cores, g, s1, b, |m0|) &&
             core.plan == AePlan(cores, m0, g, s1, b) && g.n == 8 * q && b > 0
    requires Share(b, core.id, lo, hi) && lo <= j < hi <= g.n && TurnIs(b, v, j, lo, t) && i == 4 * v && i + 4 <= g.n
    requires core.mem == core.plan.mem(g.n + t)
    modifies core
    ensures core.Valid() && core.epoch == g.n + t + 1 && core.mem == core.plan.mem(g.n + t + 1)
  {
    hide *;
    ghost var op := WholeOp(g, m0);
    SharedGrid(g, s1, q);
    CoreSize(core, cores, m0, g, s1, b);
    ComputeReady(cores, m0, g, s1, b, core.id, lo, hi, core.epoch, j);
    ReadySmaller(core.plan, core.id, core.epoch, FromShared(g, s1), op, j, j + 1, 0, g.n, j, j + 1, i, i + 4);
    Block(core, FromShared(g, s1), j, 1, i, 4, 0, g.n, 8, false, true, op);
    TurnSync(cores, m0, g, s1, b, core.id, lo, hi, v, j, t, core.mem);
    core.Barrier();
  }

  lemma SharedGrid(g: Grid, s1: nat, q: nat)
    requires g.n == 8 * q
    ensures FromShared(g, s1).n == g.n && (g.n - 0) % 8 == 0
  {
  }

  lemma CoreSize(core: Core, cores: nat, m0: seq<real>, g: Grid, s1: nat, b: nat)
    requires core.Valid() && b > 0 && core.plan == AePlan(cores, m0, g, s1, b)
    ensures |core.mem| == |m0|
  {
  }

  /** The loop along one core's rows for the columns from i. */
  method TurnRow(core: Core, g: Grid, s1: nat, b: nat, i: nat, lo: nat, hi: nat, ghost v: nat, ghost t0: nat,
                 ghost q: nat, ghost cores: nat, ghost m0: seq<real>)
    returns (ghost t: nat)
    requires core.Valid() && Setting(cores, g, s1, b, |m0|) && core.plan == AePlan(cores, m0, g, s1, b) &&
             g.n == 8 * q && b > 0
    requires Share(b, core.id, lo, hi) && lo <= hi <= g.n && i == 4 * v && i + 4 <= g.n && TurnIs(b, v, lo, lo, t0)
    requires core.epoch == g.n + t0 && core.mem == core.plan.mem(g.n + t0)
    modifies core
    ensures TurnIs(b, v + 1, lo, lo, t)
    ensures core.Valid() && core.epoch == g.n + t && core.mem == core.plan.mem(g.n + t)
  {
    hide *;
    t := t0;
    var j := lo;
    while j < hi
      invariant lo <= j <= hi && core.Valid() && TurnIs(b, v, j, lo, t) && core.epoch == g.n + t &&
                core.mem == core.plan.mem(core.epoch)
    {
      TurnOne(core, g, s1, b, i, j, lo, hi, v, t, q, cores, m0);
      NextTurn(b, v, j, lo, hi, core.id, t);
      j := j + 1;
      t := t + 1;
    }
    NextTurn(b, v, j, lo, hi, core.id, t);
  }

  // ---- the kernel

  function LastEpoch(n: nat, b: nat): nat { n + n / 4 * b }

  /** matmul on one core. */
  method Matmul(core: Core, ncores: nat, g: Grid, s1: nat, ghost q: nat, ghost m0: seq<real>)
    requires core.Valid() && core.epoch == 0 && core.id < ncores && g.n == 8 * q && g.n % ncores == 0 &&
             Setting(ncores, g, s1, g.n / ncores, |m0|)
    requires core.plan == AePlan(ncores, m0, g, s1, g.n / ncores) && core.mem == core.plan.mem(0)
    modifies core
    ensures core.Valid() && core.epoch == LastEpoch(g.n, g.n / ncores) && core.mem == core.plan.mem(core.epoch)
  {
    var lda := g.n;
    var b := lda / ncores;
    var lo, hi := core.id * b, (core.id + 1) * b;
    assert lda == b * ncores && b > 0 && Share(b, core.id, lo, hi);
    ShareInside(ncores, g, b, core.id, lo, hi);
    Compute(core, g, s1, b, lo, hi, q, ncores, m0);
  }

  method Compute(core: Core, g: Grid, s1: nat, b: nat, lo: nat, hi: nat, ghost q: nat, ghost cores: nat,
                 ghost m0: seq<real>)
    requires core.Valid() && core.epoch == 0 && g.n == 8 * q && Setting(cores, g, s1, b, |m0|)
    requires core.plan == AePlan(cores, m0, g, s1, b) && core.mem == core.plan.mem(0) && Share(b, core.id, lo, hi) &&
             lo <= hi <= g.n && b > 0
    modifies core
    ensures core.Valid() && core.epoch == LastEpoch(g.n, b) && core.mem == core.plan.mem(core.epoch)
  {
    hide *;
    Transpose(core, g, s1, b, lo, hi, cores, m0);
    Multiply(core, g, s1, b, lo, hi, q, cores, m0);
  }

  method Transpose(core: Core, g: Grid, s1: nat, b: nat, lo: nat, hi: nat, ghost cores: nat, ghost m0: seq<real>)
    requires core.Valid() && core.epoch == 0 && Setting(cores, g, s1, b, |m0|)
    requires core.plan == AePlan(cores, m0, g, s1, b) && core.mem == core.plan.mem(0) && Share(b, core.id, lo, hi) &&
             lo <= hi <= g.n && b > 0
    modifies core
    ensures core.Valid() && core.epoch == g.n && core.mem == core.plan.mem(g.n)
  {
    hide *;
    var k := 0;
    while k < g.n
      invariant 0 <= k <= g.n && core.Valid() && core.epoch == k && core.mem == core.plan.mem(k)
    {
      TransposeColumn(core, g, s1, b, lo, hi, k, cores, m0);
      k := k + 1;
    }
  }

  method Multiply(core: Core, g: Grid, s1: nat, b: nat, lo: nat, hi: nat, ghost q: nat, ghost cores: nat,
                  ghost m0: seq<real>)
    requires core.Valid() && core.epoch == g.n == 8 * q && Setting(cores, g, s1, b, |m0|)
    requires core.plan == AePlan(cores, m0, g, s1, b) && core.mem == core.plan.mem(g.n) && Share(b, core.id, lo, hi) &&
             lo <= hi <= g.n && b > 0
    modifies core
    ensures core.Valid() && core.epoch == LastEpoch(g.n, b) && core.mem == core.plan.mem(core.epoch)
  {
    hide *;
    LastTurn(g.n, b, q);
    FirstTurn(b, lo);
    ghost var v, t := 0, 0;
    var i := 0;
    while i < g.n
      invariant i == 4 * v && v <= 2 * q && core.Valid() && TurnIs(b, v, lo, lo, t) && core.epoch == g.n + t &&
                core.mem == core.plan.mem(g.n + t)
      decreases g.n - i
    {
      t := TurnRow(core, g, s1, b, i, lo, hi, v, t, q, cores, m0);
      i := i + 4;
      v := v + 1;
    }
    assert v == 2 * q;
  }

  lemma FirstTurn(b: nat, lo: nat)
    ensures TurnIs(b, 0, lo, lo, 0)
  {
  }

  lemma LastTurn(n: nat, b: nat, q: nat)
    requires n == 8 * q
    ensures LastEpoch(n, b) == n + 2 * q * b
    ensures forall lo: nat, t: nat | TurnIs(b, 2 * q, lo, lo, t) :: LastEpoch(n, b) == n + t
  {
  }

  // ---- all cores

  lemma TurnsOver(b: nat, q: nat, r: nat, c: nat)
    requires b > 0 && c < 8 * q
    ensures Turn(b, r, c) < 2 * q * b
  {
    hide Quot, Rem;
    QuotRem(c, 4);
    ProductMonotone(Quot(c, 4) + 1, 2 * q, b);
    assert (Quot(c, 4) + 1) * b == Quot(c, 4) * b + b;
  }

  /** At the end all of C holds the product. */
  lemma AllDone(cores: nat, m0: seq<real>, g: Grid, s1: nat, b: nat, q: nat, c: nat)
    requires Setting(cores, g, s1, b, |m0|) && g.n == 8 * q
    ensures var plan, e, op := AePlan(cores, m0, g, s1, b), LastEpoch(g.n, b), WholeOp(g, m0);
            Gains(op, Zeros(|m0|), plan.mem(e), plan.mem(e), Mine(op, |m0|, g.n, g.n, BlockOwner(b), c), 0, g.n)
  {
    var plan, e, op := AePlan(cores, m0, g, s1, b), LastEpoch(g.n, b), WholeOp(g, m0);
    hide AePlan, LastEpoch, Op.In, Op.Row, Op.Col, Op.Gain, Setting, WholeOp;
    PlanSize(cores, m0, g, s1, b, e);
    forall x: nat | x < |m0| && op.In(x, 0, g.n, 0, g.n)
      ensures plan.mem(e)[x] == op.Gain(x, 0, g.n)
    {
      ElementDone(cores, m0, g, s1, b, q, x);
    }
  }

  lemma PlanSize(cores: nat, m0: seq<real>, g: Grid, s1: nat, b: nat, e: nat)
    requires Setting(cores, g, s1, b, |m0|)
    ensures b > 0 && |AePlan(cores, m0, g, s1, b).mem(e)| == |m0| == AePlan(cores, m0, g, s1, b).size
  {
    PlanAt(cores, m0, g, s1, b, e, 0);
  }

  lemma ElementDone(cores: nat, m0: seq<real>, g: Grid, s1: nat, b: nat, q: nat, x: nat)
    requires Setting(cores, g, s1, b, |m0|) && g.n == 8 * q && x < |m0| && WholeOp(g, m0).In(x, 0, g.n, 0, g.n)
    ensures var plan, e := AePlan(cores, m0, g, s1, b), LastEpoch(g.n, b);
            x < |plan.mem(e)| && plan.mem(e)[x] == WholeOp(g, m0).Gain(x, 0, g.n)
  {
    hide AePlan, ValueAt, LastEpoch, Op.Row, Op.Col, Op.Gain, Turn;
    var op := WholeOp(g, m0);
    PlanAt(cores, m0, g, s1, b, LastEpoch(g.n, b), x);
    LastTurn(g.n, b, q);
    TurnValue(m0, g, s1, b, 2 * q * b, x);
    TurnsOver(b, q, op.Row(x), op.Col(x));
  }

  lemma AeByRows(cores: nat, m0: seq<real>, g: Grid, s1: nat, b: nat)
    requires Setting(cores, g, s1, b, |m0|)
    ensures ByRows(AePlan(cores, m0, g, s1, b), LastEpoch(g.n, b), WholeOp(g, m0), g.n, g.n, BlockOwner(b))
  {
    var plan, e, op := AePlan(cores, m0, g, s1, b), LastEpoch(g.n, b), WholeOp(g, m0);
    forall x: nat ensures plan.kind(e, x) == RowKind(op, g.n, g.n, BlockOwner(b), x) {
      PlanAt(cores, m0, g, s1, b, e, x);
      hide AePlan;
    }
    OwnersInRange(b, cores);
    PlanAt(cores, m0, g, s1, b, e, 0);
    hide AePlan, RowKind, BlockOwner;
  }

  lemma PlanReady(ncores: nat, m0: seq<real>, g: Grid, s1: nat, b: nat)
    requires Setting(ncores, g, s1, b, |m0|)
    ensures b > 0
    ensures var plan := AePlan(ncores, m0, g, s1, b);
            && Sound(plan) && ByRows(plan, LastEpoch(g.n, b), WholeOp(g, m0), g.n, g.n, BlockOwner(b))
            && plan.size == |m0| && plan.cores == ncores && plan.mem(0) == m0
  {
    AeStart(ncores, m0, g, s1, b);
    AeSound(ncores, m0, g, s1, b);
    AeByRows(ncores, m0, g, s1, b);
    PlanAt(ncores, m0, g, s1, b, 0, 0);
    hide AePlan;
  }

  /** All cores run matmul on the memory m0.  In every interleaving the transpose is complete
      when it is read, and C ends as the product. */
  method MatmulAll(ncores: nat, m0: seq<real>, g: Grid, s1: nat, ghost q: nat) returns (ghost ts: seq<seq<Event>>)
    requires ncores > 0 && g.n == 8 * q && g.n % ncores == 0 && Setting(ncores, g, s1, g.n / ncores, |m0|)
    ensures |ts| == ncores
    ensures var b := g.n / ncores; var plan, e := AePlan(ncores, m0, g, s1, b), LastEpoch(g.n, b);
            plan.mem(0) == m0 && Team(plan, ts, e) && Correct(plan, ts, e, WholeOp(g, m0), Zeros(|m0|), g.n, g.n)
  {
    hide *;
    var b := g.n / ncores;
    PlanReady(ncores, m0, g, s1, b);
    var plan := AePlan(ncores, m0, g, s1, b);
    ghost var op, e := WholeOp(g, m0), LastEpoch(g.n, b);
    ts := [];
    for c := 0 to ncores
      invariant |ts| == c &&
                forall d | 0 <= d < c :: Worked(plan, d, ts[d], e, op, Zeros(|m0|), g.n, g.n, BlockOwner(b))
    {
      var tr := MatmulOne(ncores, m0, g, s1, c, b, plan, q);
      ts := ts + [tr];
    }
    forall d: nat | d < e ensures Filled(plan, ts, d) { NoneAgreed(ncores, m0, g, s1, b, ts, d); }
    AeTeam(plan, ts, e, op, g.n, BlockOwner(b));
  }

  method MatmulOne(ncores: nat, m0: seq<real>, g: Grid, s1: nat, c: nat, b: nat, plan: Plan, ghost q: nat)
    returns (ghost tr: seq<Event>)
    requires c < ncores && g.n == 8 * q && g.n % ncores == 0 && b == g.n / ncores > 0 && Setting(ncores, g, s1, b, |m0|)
    requires plan == AePlan(ncores, m0, g, s1, b) && Sound(plan) && plan.size == |m0|
    ensures Worked(plan, c, tr, LastEpoch(g.n, b), WholeOp(g, m0), Zeros(|m0|), g.n, g.n, BlockOwner(b))
  {
    hide *;
    var core := new Core(c, plan);
    Matmul(core, ncores, g, s1, q, m0);
    AllDone(ncores, m0, g, s1, b, q, c);
    HasWorked(core, LastEpoch(g.n, b), WholeOp(g, m0), Zeros(|m0|), g.n, g.n, BlockOwner(b));
    tr := core.trace;
  }

  /** Nobody shares a location to store to. */
  lemma NoneAgreed(cores: nat, m0: seq<real>, g: Grid, s1: nat, b: nat, ts: seq<seq<Event>>, e: nat)
    requires b > 0
    ensures Filled(AePlan(cores, m0, g, s1, b), ts, e)
  {
    hide AePlan;
    forall x: nat ensures !AePlan(cores, m0, g, s1, b).kind(e, x).Broadcast? { PlanAt(cores, m0, g, s1, b, e, x); }
  }

  lemma AeTeam(plan: Plan, ts: seq<seq<Event>>, e: nat, op: Op, n: nat, own: int -> nat)
    requires Sound(plan) && |ts| == plan.cores > 0 && ByRows(plan, e, op, n, n, own)
    requires forall d: nat | d < e :: Filled(plan, ts, d)
    requires forall c | 0 <= c < |ts| :: Worked(plan, c, ts[c], e, op, Zeros(plan.size), n, n, own)
    ensures Team(plan, ts, e) && Correct(plan, ts, e, op, Zeros(plan.size), n, n)
  {
    forall c | 0 <= c < |ts| ensures Follows(plan, c, ts[c]) && Epoch(ts[c]) == e {
      assert Worked(plan, c, ts[c], e, op, Zeros(plan.size), n, n, own);
    }
    AnyInterleaving(plan, ts, e, op, Zeros(plan.size), n, n, own);
  }
}
