/** What the multi-core kernels have in common: every row of C belongs to one core. */
module RowOwners {
  import opened Powers
  import opened MatrixWindow
  import opened Interleaving
  import opened SharedCore
  import opened BarrierCores
  import opened BlockKernel

  /** The elements of C, in the first `rows` rows, whose row core c owns. */
  function Mine(op: Op, size: nat, rows: nat, n: nat, own: int -> nat, c: nat): set<nat> {
    set x: nat | x < size && op.In(x, 0, rows, 0, n) && own(op.Row(x)) == c
  }

  function RowKind(op: Op, rows: nat, n: nat, own: int -> nat, x: nat): Kind {
    if op.In(x, 0, rows, 0, n) then Owned(own(op.Row(x))) else Frozen
  }

  /** In the last epoch each core works on its own rows only. */
  ghost predicate ByRows(plan: Plan, e: nat, op: Op, rows: nat, n: nat, own: int -> nat) {
    && (forall x: nat | x < plan.size :: plan.kind(e, x) == RowKind(op, rows, n, own, x))
    && (forall r | 0 <= r < rows :: own(r) < plan.cores)
  }

  /** Core c's trace ends with the products added to its rows. */
  ghost predicate Worked(plan: Plan, c: nat, tr: seq<Event>, e: nat, op: Op, base: seq<real>, rows: nat, n: nat,
                         own: int -> nat) {
    && Follows(plan, c, tr) && Epoch(tr) == e
    && Gains(op, base, plan.mem(e), View(plan, tr), Mine(op, plan.size, rows, n, own, c), 0, n)
  }

  /** Memory s holds the product on top of base in the first `rows` rows of C, and the rest is as in s0. */
  ghost predicate Multiplied(op: Op, base: seq<real>, s0: seq<real>, s: seq<real>, rows: nat, n: nat) {
    Gains(op, base, s0, s, Rect(op, |s0|, 0, rows, 0, n), 0, n)
  }

  /** What that means for element (r, c) of C: the products of row r of A and column c of B, one after
      the other, on top of what base has there. */
  lemma ProductAt(g: Grid, m0: seq<real>, base: seq<real>, s0: seq<real>, s: seq<real>, rows: nat, r: nat, c: nat)
    returns (sums: seq<real>)
    requires Multiplied(WholeOp(g, m0), base, s0, s, rows, g.n) && r < rows && c < g.n
    requires 0 <= g.oc + r * g.n + c < |s0|
    ensures |sums| == g.n + 1 && sums[0] == 0.0
    ensures forall k | 0 <= k < g.n ::
              sums[k + 1] == sums[k] + At(m0, g.oa + r * g.n + k) * At(m0, g.ob + k * g.n + c)
    ensures |base| == |s0| == |s| && s[g.oc + r * g.n + c] == base[g.oc + r * g.n + c] + sums[g.n]
  {
    hide Op.Sum, Op.Row, Op.Col, WholeOp, At;
    sums := WholeSteps(g, m0, r, c);
    WholePlace(g, m0, |s0|, rows, r, c, g.oc + r * g.n + c);
  }

  /** The sum of the products for element (r, c), step by step. */
  lemma WholeSteps(g: Grid, m0: seq<real>, r: nat, c: nat) returns (sums: seq<real>)
    ensures |sums| == g.n + 1 && sums[0] == 0.0 && sums[g.n] == WholeOp(g, m0).Sum(r, c, 0, g.n)
    ensures forall k | 0 <= k < g.n ::
              sums[k + 1] == sums[k] + At(m0, g.oa + r * g.n + k) * At(m0, g.ob + k * g.n + c)
  {
    hide Op.Sum, At;
    sums := WholeOp(g, m0).SumSteps(r, c, g.n);
  }

  lemma WholePlace(g: Grid, m0: seq<real>, size: nat, rows: nat, r: nat, c: nat, x: nat)
    requires x == g.oc + r * g.n + c && c < g.n && x < size
    ensures WholeOp(g, m0).Row(x) == r && WholeOp(g, m0).Col(x) == c
    ensures r < rows ==> x in Rect(WholeOp(g, m0), size, 0, rows, 0, g.n)
    ensures WholeOp(g, m0).Gain(x, 0, g.n) == WholeOp(g, m0).Sum(r, c, 0, g.n)
  {
    hide Op.Sum;
    WholeOp(g, m0).RowCol(r, c);
  }

  /** And outside these rows of C the memory is as it was. */
  lemma ProductElsewhere(g: Grid, m0: seq<real>, base: seq<real>, s0: seq<real>, s: seq<real>, rows: nat, x: nat)
    requires Multiplied(WholeOp(g, m0), base, s0, s, rows, g.n) && x < |s0| && g.n > 0
    requires x < g.oc || (x - g.oc) / g.n >= rows
    ensures |s| == |s0| && s[x] == s0[x]
  {
    hide Op.Sum;
  }

  /** All rows together, whatever the interleaving. */
  lemma AllRows(plan: Plan, ts: seq<seq<Event>>, e: nat, op: Op, base: seq<real>, rows: nat, n: nat, own: int -> nat,
                s: seq<real>)
    requires Sound(plan) && |ts| == plan.cores && |base| == plan.size && ByRows(plan, e, op, rows, n, own) &&
             Outcome(plan, ts, e, s)
    requires forall c | 0 <= c < |ts| :: Worked(plan, c, ts[c], e, op, base, rows, n, own)
    ensures Multiplied(op, base, plan.mem(e), s, rows, n)
  {
    assert |plan.mem(e)| == plan.size;
    forall x | 0 <= x < |s|
      ensures s[x] == if x in Rect(op, |s|, 0, rows, 0, n) then base[x] + op.Gain(x, 0, n) else plan.mem(e)[x]
    {
      hide Op.Row, Op.Col, Op.Gain, View;
      assert OutcomeAt(plan, ts, e, s, x);
      if op.In(x, 0, rows, 0, n) {
        var c := own(op.Row(x));
        assert Worked(plan, c, ts[c], e, op, base, rows, n, own);
        assert x in Mine(op, plan.size, rows, n, own, c);
      }
    }
  }

  /** Whatever the interleaving, and with the barrier's own steps among the turns: a run can
      always go on until all cores have returned, and then the memory holds the product. */
  ghost predicate Correct(plan: Plan, ts: seq<seq<Event>>, e: nat, op: Op, base: seq<real>, rows: nat, n: nat) {
    && (forall schedule | Schedule(|ts|, schedule) :: CanFinish(plan, ts, schedule))
    && (forall schedule | Schedule(|ts|, schedule) && Done(ts, After(plan, ts, schedule)) ::
          Multiplied(op, base, plan.mem(e), After(plan, ts, schedule).mem, rows, n))
  }

  lemma AnyInterleaving(plan: Plan, ts: seq<seq<Event>>, e: nat, op: Op, base: seq<real>, rows: nat, n: nat,
                        own: int -> nat)
    requires Team(plan, ts, e) && |ts| > 0 && |base| == plan.size && ByRows(plan, e, op, rows, n, own)
    requires forall c | 0 <= c < |ts| :: Worked(plan, c, ts[c], e, op, base, rows, n, own)
    ensures Correct(plan, ts, e, op, base, rows, n)
  {
    hide Worked, ByRows, Team, Outcome, Done, After, Multiplied, CanFinish;
    forall schedule | Schedule(|ts|, schedule) ensures CanFinish(plan, ts, schedule) { GoesOn(plan, ts, e, schedule); }
    forall schedule | Schedule(|ts|, schedule) && Done(ts, After(plan, ts, schedule))
      ensures Multiplied(op, base, plan.mem(e), After(plan, ts, schedule).mem, rows, n)
    {
      FinishOver(plan, ts, e, schedule);
      TeamSize(plan, ts, e);
      AllRows(plan, ts, e, op, base, rows, n, own, After(plan, ts, schedule).mem);
    }
  }

  lemma TeamSize(plan: Plan, ts: seq<seq<Event>>, epochs: nat)
    requires Team(plan, ts, epochs)
    ensures Sound(plan) && |ts| == plan.cores
  {
  }

  lemma HasWorked(core: Core, e: nat, op: Op, base: seq<real>, rows: nat, n: nat, own: int -> nat)
    requires core.Valid() && core.epoch == e &&
             Gains(op, base, core.plan.mem(e), core.mem, Mine(op, core.plan.size, rows, n, own, core.id), 0, n)
    ensures Worked(core.plan, core.id, core.trace, e, op, base, rows, n, own)
  {
  }

  // ---- kernels without barriers

  /** A, B and C in one memory, apart from one another. */
  ghost predicate Apart(g: Grid, size: nat) {
    && g.oa + g.n * g.n <= size && g.ob + g.n * g.n <= size && g.oc + g.n * g.n <= size
    && (g.oa + g.n * g.n <= g.oc || g.oc + g.n * g.n <= g.oa)
    && (g.ob + g.n * g.n <= g.oc || g.oc + g.n * g.n <= g.ob)
  }

  /** A, B and C, and the shared array s1 apart from all of them. */
  ghost predicate ApartFrom(g: Grid, s1: nat, size: nat) {
    && Apart(g, size) && s1 + g.n * g.n <= size
    && (s1 + g.n * g.n <= g.oa || g.oa + g.n * g.n <= s1)
    && (s1 + g.n * g.n <= g.ob || g.ob + g.n * g.n <= s1)
    && (s1 + g.n * g.n <= g.oc || g.oc + g.n * g.n <= s1)
  }

  predicate InShared(g: Grid, s1: nat, x: nat) { s1 <= x < s1 + g.n * g.n }

  function WholeOp(g: Grid, m0: seq<real>): Op { Op(m0, g.oa, g.n, m0, g.ob, g.n, g.oc, g.n) }

  function RowPlan(cores: nat, m0: seq<real>, g: Grid, rows: nat, own: int -> nat): Plan {
    Plan(cores, |m0|, (e: nat) => m0, (e: nat, x: nat) => RowKind(WholeOp(g, m0), rows, g.n, own, x))
  }

  lemma Inside(n: nat, r: nat, k: nat)
    requires r < n && k < n
    ensures 0 <= r * n + k < n * n
  {
    ProductMonotone(r, n - 1, n);
    assert (n - 1) * n == n * n - n;
  }

  /** The positions of A and B are not positions of C. */
  lemma NotInC(g: Grid, op: Op, o: nat, y: nat, rows: nat)
    requires op.oc == g.oc && op.ldc == g.n && y < g.n * g.n && (o + g.n * g.n <= g.oc || g.oc + g.n * g.n <= o) &&
             rows <= g.n
    ensures !op.In(o + y, 0, rows, 0, g.n)
  {
    var x := o + y;
    if op.In(x, 0, rows, 0, g.n) {
      op.RowColBack(x);
      Inside(g.n, op.Row(x), op.Col(x));
    }
  }

  lemma RowPlanReady(cores: nat, m0: seq<real>, g: Grid, rows: nat, own: int -> nat, id: nat, e: nat, r0: nat, r1: nat)
    requires Apart(g, |m0|) && g.sk == g.n && g.sj == 1 && r1 <= rows <= g.n && forall r | r0 <= r < r1 :: own(r) == id
    ensures Ready(RowPlan(cores, m0, g, rows, own), id, e, g, WholeOp(g, m0), r0, r1, 0, g.n)
  {
    var plan, op := RowPlan(cores, m0, g, rows, own), WholeOp(g, m0);
    forall r: nat, k: nat | r < g.n && k < g.n ensures ReadableA(plan, e, g, op, r, k) {
      Inside(g.n, r, k);
      NotInC(g, op, g.oa, r * g.n + k, rows);
    }
    forall k: nat, j: nat | k < g.n && j < g.n ensures ReadableB(plan, e, g, op, k, j) {
      Inside(g.n, k, j);
      NotInC(g, op, g.ob, k * g.n + j, rows);
    }
    forall r: nat, j: nat | r0 <= r < r1 && 0 <= j < g.n ensures OwnedC(plan, id, e, g, r, j) {
      Inside(g.n, r, j);
      op.RowCol(r, j);
    }
  }

  lemma RowPlanSound(cores: nat, m0: seq<real>, g: Grid, rows: nat, own: int -> nat)
    ensures Sound(RowPlan(cores, m0, g, rows, own))
    ensures (forall r | 0 <= r < rows :: own(r) < cores) ==>
              ByRows(RowPlan(cores, m0, g, rows, own), 0, WholeOp(g, m0), rows, g.n, own)
  {
  }

  /** Cores that need no barrier. */
  lemma NoBarriers(cores: nat, m0: seq<real>, g: Grid, rows: nat, own: int -> nat, base: seq<real>, ts: seq<seq<Event>>)
    requires |ts| == cores > 0 && |base| == |m0| && forall r | 0 <= r < rows :: own(r) < cores
    requires var plan := RowPlan(cores, m0, g, rows, own);
             forall c | 0 <= c < cores :: Worked(plan, c, ts[c], 0, WholeOp(g, m0), base, rows, g.n, own)
    ensures Team(RowPlan(cores, m0, g, rows, own), ts, 0)
    ensures Correct(RowPlan(cores, m0, g, rows, own), ts, 0, WholeOp(g, m0), base, rows, g.n)
  {
    var plan, op := RowPlan(cores, m0, g, rows, own), WholeOp(g, m0);
    RowPlanSound(cores, m0, g, rows, own);
    forall c | 0 <= c < cores ensures Follows(plan, c, ts[c]) && Epoch(ts[c]) == 0 {
      assert Worked(plan, c, ts[c], 0, op, base, rows, g.n, own);
    }
    AnyInterleaving(plan, ts, 0, op, base, rows, g.n, own);
  }

  // ---- equal blocks of rows

  /** Row r is in block r / b. */
  function BlockOwner(b: nat): int -> nat { (r: int) => if r < 0 || b == 0 then 0 else r / b }

  lemma BlockOwners(op: Op, size: nat, n: nat, b: nat, cores: nat, c: nat)
    requires c < cores
    ensures Mine(op, size, b * cores, n, BlockOwner(b), c) == Rect(op, size, b * c, b * c + b, 0, n)
    ensures forall r | b * c <= r < b * c + b :: BlockOwner(b)(r) == c
    ensures b * c + b <= b * cores
  {
    assert b * c + b == b * (c + 1);
    ProductMonotone(c + 1, cores, b);
    forall x: nat | x < size
      ensures x in Mine(op, size, b * cores, n, BlockOwner(b), c) <==> x in Rect(op, size, b * c, b * c + b, 0, n)
    {
      hide Op.Row, Op.Col;
      if op.In(x, 0, b * cores, 0, n) && b > 0 { BlockOf(op.Row(x), b, c); }
    }
    forall r | b * c <= r < b * c + b ensures BlockOwner(b)(r) == c { BlockOf(r, b, c); }
  }

  lemma BlockOf(r: nat, b: nat, c: nat)
    requires b > 0
    ensures r / b == c <==> b * c <= r < b * c + b
  {
    if b * c <= r < b * c + b { DivModUnique(r, b, c, r - b * c); }
  }

  lemma OwnersInRange(b: nat, cores: nat)
    requires cores > 0
    ensures forall r | 0 <= r < b * cores :: BlockOwner(b)(r) < cores
  {
    forall r | 0 <= r < b * cores ensures BlockOwner(b)(r) < cores {
      if b > 0 && r / b >= cores { ProductMonotone(cores, r / b, b); }
    }
  }
}
