/** The inner loops that the multi-core kernels share: a block of C is taken into local
    variables, the products along k are added, and the block is stored. */
module BlockKernel {
  import opened Powers
  import opened MatrixWindow
  import opened Interleaving
  import opened SharedCore

  /** n by n matrices: where A and C start, and where B's element (k, j) is read from,
      which is B itself or a copy or transpose of it. */
  datatype Grid = Grid(n: nat, oa: nat, oc: nat, ob: nat, sk: nat, sj: nat) {
    function A(r: nat, k: nat): nat { oa + r * n + k }
    function B(k: nat, j: nat): nat { ob + k * sk + j * sj }
    function C(r: nat, j: nat): nat { oc + r * n + j }
  }

  /** Everybody may read element (r, k) of A, and it is the one meant. */
  ghost predicate ReadableA(plan: Plan, e: nat, g: Grid, op: Op, r: nat, k: nat) {
    var x := g.A(r, k);
    x < plan.size && x < |plan.mem(e)| && plan.kind(e, x) == Frozen &&
      plan.mem(e)[x] == At(op.a, op.oa + r * op.lda + k)
  }

  ghost predicate ReadableB(plan: Plan, e: nat, g: Grid, op: Op, k: nat, j: nat) {
    var x := g.B(k, j);
    x < plan.size && x < |plan.mem(e)| && plan.kind(e, x) == Frozen &&
      plan.mem(e)[x] == At(op.b, op.ob + k * op.ldb + j)
  }

  /** A core's situation in an epoch: all of A and B may be read, and the elements of C in
      the given rectangle are its own. */
  ghost predicate Ready(plan: Plan, id: nat, e: nat, g: Grid, op: Op, r0: nat, r1: nat, c0: nat, c1: nat) {
    && op.oc == g.oc && op.ldc == g.n && r1 <= g.n && c1 <= g.n
    && (forall r: nat, k: nat | r < g.n && k < g.n :: ReadableA(plan, e, g, op, r, k))
    && (forall k: nat, j: nat | k < g.n && j < g.n :: ReadableB(plan, e, g, op, k, j))
    && (forall r: nat, j: nat | r0 <= r < r1 && c0 <= j < c1 :: OwnedC(plan, id, e, g, r, j))
  }

  ghost predicate OwnedC(plan: Plan, id: nat, e: nat, g: Grid, r: nat, j: nat) {
    g.C(r, j) < plan.size && plan.kind(e, g.C(r, j)) == Owned(id)
  }

  lemma ReadySmaller(plan: Plan, id: nat, e: nat, g: Grid, op: Op, r0: nat, r1: nat, c0: nat, c1: nat, r0': nat,
                     r1': nat, c0': nat, c1': nat)
    requires Ready(plan, id, e, g, op, r0, r1, c0, c1) && r0 <= r0' && r1' <= r1 && c0 <= c0' && c1' <= c1
    ensures Ready(plan, id, e, g, op, r0', r1', c0', c1')
  {
  }

  // ---- what has been gained

  /** The positions of a rectangle of C. */
  function Rect(op: Op, size: nat, r0: int, r1: int, c0: int, c1: int): set<nat> {
    set x: nat | x < size && op.In(x, r0, r1, c0, c1)
  }

  /** t has the products over [lo, hi) on top of base at the positions in D, and is s elsewhere. */
  ghost predicate Gains(op: Op, base: seq<real>, s: seq<real>, t: seq<real>, D: set<nat>, lo: int, hi: int) {
    |base| == |s| == |t| && forall x | 0 <= x < |s| :: t[x] == if x in D then base[x] + op.Gain(x, lo, hi) else s[x]
  }

  lemma GainsNothing(op: Op, base: seq<real>, s: seq<real>, lo: int, hi: int)
    requires |base| == |s|
    ensures Gains(op, base, s, s, {}, lo, hi)
  {
  }

  /** Gains at disjoint places add up. */
  lemma GainsMore(op: Op, base: seq<real>, base': seq<real>, s: seq<real>, t: seq<real>, u: seq<real>, D: set<nat>,
                  D': set<nat>, lo: int, hi: int)
    requires Gains(op, base, s, t, D, lo, hi) && Gains(op, base', t, u, D', lo, hi) && D !! D'
    requires base' == base || (base == s && base' == t)
    ensures Gains(op, base, s, u, D + D', lo, hi)
  {
    hide Op.Gain;
  }

  lemma GainsOne(op: Op, base: seq<real>, s: seq<real>, t: seq<real>, D: set<nat>, x: nat, lo: int, hi: int)
    requires Gains(op, base, s, t, D, lo, hi) && x < |t|
    ensures Gains(op, base, s, t[x := base[x] + op.Gain(x, lo, hi)], D + {x}, lo, hi)
  {
    hide Op.Gain;
  }

  /** Gains over adjacent depths at the same places add up. */
  lemma GainsDeeper(op: Op, s: seq<real>, t: seq<real>, u: seq<real>, D: set<nat>, lo: int, mid: int, hi: int)
    requires lo <= mid <= hi
    requires (Gains(op, s, s, t, D, lo, mid) && Gains(op, t, t, u, D, mid, hi)) ||
             (Gains(op, s, s, t, D, mid, hi) && Gains(op, t, t, u, D, lo, mid))
    ensures Gains(op, s, s, u, D, lo, hi)
  {
    forall x | 0 <= x < |s| ensures op.Gain(x, lo, hi) == op.Gain(x, lo, mid) + op.Gain(x, mid, hi) {
      op.SumSplit(op.Row(x), op.Col(x), lo, mid, hi);
    }
    hide Op.Gain;
  }

  lemma RectEmpty(op: Op, size: nat, r0: int, r1: int, c0: int, c1: int)
    requires r1 <= r0 || c1 <= c0
    ensures Rect(op, size, r0, r1, c0, c1) == {}
  {
  }

  lemma RectRows(op: Op, size: nat, r0: nat, r: int, r1: int, c0: int, c1: int)
    requires r0 <= r <= r1
    ensures Rect(op, size, r0, r, c0, c1) !! Rect(op, size, r, r1, c0, c1)
    ensures Rect(op, size, r0, r, c0, c1) + Rect(op, size, r, r1, c0, c1) == Rect(op, size, r0, r1, c0, c1)
  {
    hide Op.Row, Op.Col;
  }

  lemma RectCols(op: Op, size: nat, r0: int, r1: int, c0: int, c: int, c1: int)
    requires c0 <= c <= c1
    ensures Rect(op, size, r0, r1, c0, c) !! Rect(op, size, r0, r1, c, c1)
    ensures Rect(op, size, r0, r1, c0, c) + Rect(op, size, r0, r1, c, c1) == Rect(op, size, r0, r1, c0, c1)
  {
    hide Op.Row, Op.Col;
  }

  lemma RectOne(op: Op, size: nat, r: nat, j: nat)
    requires j < op.ldc && op.oc + r * op.ldc + j < size
    ensures Rect(op, size, r, r + 1, j, j + 1) == {op.oc + r * op.ldc + j}
    ensures op.Row(op.oc + r * op.ldc + j) == r && op.Col(op.oc + r * op.ldc + j) == j
  {
    hide Op.Row, Op.Col;
    op.RowCol(r, j);
    forall x: nat {:trigger op.In(x, r, r + 1, j, j + 1)} | x in Rect(op, size, r, r + 1, j, j + 1)
      ensures x == op.oc + r * op.ldc + j
    {
      op.RowColBack(x);
    }
  }

  lemma Regroup(D: set<nat>, E: set<nat>, F: set<nat>)
    ensures D + E + F == D + (E + F) && {} + E == E && D + {} == D
  {
  }

  /** Some more rows below those that have gained. */
  lemma RowsAfter(op: Op, base: seq<real>, base': seq<real>, s: seq<real>, t: seq<real>, u: seq<real>,
                  r0: nat, r: nat, r1: nat, c0: int, c1: int, lo: int, hi: int)
    requires r0 <= r <= r1 && Gains(op, base, s, t, Rect(op, |s|, r0, r, c0, c1), lo, hi)
    requires Gains(op, base', t, u, Rect(op, |s|, r, r1, c0, c1), lo, hi) &&
             (base' == base || (base == s && base' == t))
    ensures Gains(op, base, s, u, Rect(op, |s|, r0, r1, c0, c1), lo, hi)
  {
    hide *;
    RectRows(op, |s|, r0, r, r1, c0, c1);
    GainsMore(op, base, base', s, t, u, Rect(op, |s|, r0, r, c0, c1), Rect(op, |s|, r, r1, c0, c1), lo, hi);
  }

  /** Some more columns to the right. */
  lemma ColsAfter(op: Op, base: seq<real>, base': seq<real>, s: seq<real>, t: seq<real>, u: seq<real>,
                  r0: int, r1: int, c0: int, c: int, c1: int, lo: int, hi: int)
    requires c0 <= c <= c1 && Gains(op, base, s, t, Rect(op, |s|, r0, r1, c0, c), lo, hi)
    requires Gains(op, base', t, u, Rect(op, |s|, r0, r1, c, c1), lo, hi) &&
             (base' == base || (base == s && base' == t))
    ensures Gains(op, base, s, u, Rect(op, |s|, r0, r1, c0, c1), lo, hi)
  {
    hide *;
    RectCols(op, |s|, r0, r1, c0, c, c1);
    GainsMore(op, base, base', s, t, u, Rect(op, |s|, r0, r1, c0, c), Rect(op, |s|, r0, r1, c, c1), lo, hi);
  }

  lemma NoRect(op: Op, base: seq<real>, s: seq<real>, r0: int, r1: int, c0: int, c1: int, lo: int, hi: int)
    requires |base| == |s| && (r1 <= r0 || c1 <= c0)
    ensures Gains(op, base, s, s, Rect(op, |s|, r0, r1, c0, c1), lo, hi)
  {
    RectEmpty(op, |s|, r0, r1, c0, c1);
    GainsNothing(op, base, s, lo, hi);
  }

  function Zeros(size: nat): (r: seq<real>)
    ensures |r| == size && forall i | 0 <= i < size :: r[i] == 0.0
  {
    seq(size, _ => 0.0)
  }

  // ---- a block

  /** The local variables hold base's block with the products over [lo, hi). */
  ghost predicate Accumulated(acc: array2<real>, base: seq<real>, op: Op, r0: nat, h: nat, c0: nat, w: nat, lo: int,
                              hi: int)
    reads acc
  {
    && acc.Length0 == h && acc.Length1 == w
    && forall r, s | 0 <= r < h && 0 <= s < w ::
       acc[r, s] == At(base, op.oc + (r0 + r) * op.ldc + (c0 + s)) + op.Sum(r0 + r, c0 + s, lo, hi)
  }

  /** One product for every element of the block. */
  method AddProducts(core: Core, g: Grid, acc: array2<real>, r0: nat, h: nat, c0: nat, w: nat, k: nat, ghost op: Op)
    requires core.Valid() && Ready(core.plan, core.id, core.epoch, g, op, r0, r0 + h, c0, c0 + w) && k < g.n
    requires acc.Length0 == h && acc.Length1 == w
    modifies core`trace, acc
    ensures core.Valid() && old(core.trace) <= core.trace
    ensures forall r, s | 0 <= r < h && 0 <= s < w :: acc[r, s] == old(acc[r, s]) + op.Term(r0 + r, c0 + s, k)
  {
    hide Core.Valid, Op.Term;
    for r := 0 to h
      invariant core.Valid() && old(core.trace) <= core.trace
      invariant forall r', s | 0 <= r' < h && 0 <= s < w ::
                  acc[r', s] == old(acc[r', s]) + if r' < r then op.Term(r0 + r', c0 + s, k) else 0.0
    {
      for s := 0 to w
        invariant core.Valid() && old(core.trace) <= core.trace
        invariant forall r', s' | 0 <= r' < h && 0 <= s' < w ::
          acc[r', s'] == old(acc[r', s']) + if r' < r || (r' == r && s' < s) then op.Term(r0 + r', c0 + s', k) else 0.0
      {
        var v := Product(core, g, r0 + r, c0 + s, k, r0, r0 + h, c0, c0 + w, op);
        acc[r, s] := acc[r, s] + v;
      }
    }
  }

  method Product(core: Core, g: Grid, r: nat, j: nat, k: nat, ghost r0: nat, ghost r1: nat, ghost c0: nat,
                 ghost c1: nat, ghost op: Op)
    returns (v: real)
    requires core.Valid() && Ready(core.plan, core.id, core.epoch, g, op, r0, r1, c0, c1) && k < g.n && r < g.n &&
             j < g.n
    modifies core`trace
    ensures core.Valid() && old(core.trace) <= core.trace && v == op.Term(r, j, k)
  {
    hide *;
    op.Factors(r, j, k);
    var x := LoadA(core, g, r, k, r0, r1, c0, c1, op);
    var y := LoadB(core, g, k, j, r0, r1, c0, c1, op);
    v := x * y;
  }

  lemma SameSize(core: Core)
    requires core.Valid()
    ensures |core.mem| == core.plan.size
  {
  }

  lemma ReadyA(plan: Plan, id: nat, e: nat, g: Grid, op: Op, r0: nat, r1: nat, c0: nat, c1: nat, r: nat, k: nat)
    requires Ready(plan, id, e, g, op, r0, r1, c0, c1) && r < g.n && k < g.n
    ensures ReadableA(plan, e, g, op, r, k)
  {
    hide ReadableA, ReadableB, OwnedC;
  }

  lemma ReadyB(plan: Plan, id: nat, e: nat, g: Grid, op: Op, r0: nat, r1: nat, c0: nat, c1: nat, k: nat, j: nat)
    requires Ready(plan, id, e, g, op, r0, r1, c0, c1) && k < g.n && j < g.n
    ensures ReadableB(plan, e, g, op, k, j)
  {
    hide ReadableA, ReadableB, OwnedC;
  }

  method LoadA(core: Core, g: Grid, r: nat, k: nat, ghost r0: nat, ghost r1: nat, ghost c0: nat, ghost c1: nat,
               ghost op: Op)
    returns (v: real)
    requires core.Valid() && Ready(core.plan, core.id, core.epoch, g, op, r0, r1, c0, c1) && k < g.n && r < g.n
    modifies core`trace
    ensures core.Valid() && old(core.trace) <= core.trace && v == At(op.a, op.oa + r * op.lda + k)
  {
    hide Core.Valid, Ready, At, Grid.A;
    SameSize(core);
    ReadyA(core.plan, core.id, core.epoch, g, op, r0, r1, c0, c1, r, k);
    v := core.Load(g.A(r, k));
  }

  method LoadB(core: Core, g: Grid, k: nat, j: nat, ghost r0: nat, ghost r1: nat, ghost c0: nat, ghost c1: nat,
               ghost op: Op)
    returns (v: real)
    requires core.Valid() && Ready(core.plan, core.id, core.epoch, g, op, r0, r1, c0, c1) && k < g.n && j < g.n
    modifies core`trace
    ensures core.Valid() && old(core.trace) <= core.trace && v == At(op.b, op.ob + k * op.ldb + j)
  {
    hide Core.Valid, Ready, At, Grid.B;
    SameSize(core);
    ReadyB(core.plan, core.id, core.epoch, g, op, r0, r1, c0, c1, k, j);
    v := core.Load(g.B(k, j));
  }

  lemma SumFirst(op: Op, i: int, j: int, k: int, hi: int)
    requires k < hi
    ensures op.Sum(i, j, k, hi) == op.Term(i, j, k) + op.Sum(i, j, k + 1, hi)
  {
    op.SumSplit(i, j, k, k + 1, hi);
    assert op.Sum(i, j, k, k + 1) == op.Sum(i, j, k, k) + op.Term(i, j, k);
  }

  /** The loop along k, `step` products at a time, upwards or downwards. */
  method AddAll(core: Core, g: Grid, acc: array2<real>, r0: nat, h: nat, c0: nat, w: nat, lo: nat, hi: nat, step: nat,
                down: bool, ghost base: seq<real>, ghost op: Op)
    requires core.Valid() && Ready(core.plan, core.id, core.epoch, g, op, r0, r0 + h, c0, c0 + w)
    requires lo <= hi <= g.n && step > 0 && (hi - lo) % step == 0 && Accumulated(acc, base, op, r0, h, c0, w, lo, lo)
    modifies core`trace, acc
    ensures core.Valid() && old(core.trace) <= core.trace && Accumulated(acc, base, op, r0, h, c0, w, lo, hi)
  {
    hide Core.Valid, Ready, Accumulated;
    if down { Restart(acc, base, op, r0, h, c0, w, lo, hi); }
    var k := 0;
    while k < hi - lo
      invariant 0 <= k <= hi - lo && (hi - lo - k) % step == 0 && core.Valid() && old(core.trace) <= core.trace
      invariant if down then Accumulated(acc, base, op, r0, h, c0, w, hi - k, hi)
                  else Accumulated(acc, base, op, r0, h, c0, w, lo, lo + k)
    {
      StepFits(hi - lo - k, step);
      AddStep(core, g, acc, r0, h, c0, w, lo, hi, k, step, down, base, op);
      k := k + step;
    }
  }

  lemma StepFits(left: nat, step: nat)
    requires step > 0 && left > 0 && left % step == 0
    ensures step <= left && (left - step) % step == 0
  {
    var q := left / step;
    assert left == step * q;
    assert left - step == step * (q - 1);
    if left < step { ProductMonotone(1, q, step); }
    DivModUnique(left - step, step, q - 1, 0);
  }

  /** One turn of the unrolled loop. */
  method AddStep(core: Core, g: Grid, acc: array2<real>, r0: nat, h: nat, c0: nat, w: nat, lo: nat, hi: nat, k: nat,
                 step: nat, down: bool, ghost base: seq<real>, ghost op: Op)
    requires core.Valid() && Ready(core.plan, core.id, core.epoch, g, op, r0, r0 + h, c0, c0 + w)
    requires lo <= hi <= g.n && k + step <= hi - lo
    requires if down then Accumulated(acc, base, op, r0, h, c0, w, hi - k, hi)
               else Accumulated(acc, base, op, r0, h, c0, w, lo, lo + k)
    modifies core`trace, acc
    ensures core.Valid() && old(core.trace) <= core.trace
    ensures if down then Accumulated(acc, base, op, r0, h, c0, w, hi - (k + step), hi)
              else Accumulated(acc, base, op, r0, h, c0, w, lo, lo + (k + step))
  {
    hide Core.Valid, Ready, Accumulated;
    var x := 0;
    while x < step
      invariant 0 <= x <= step && core.Valid() && old(core.trace) <= core.trace
      invariant if down then Accumulated(acc, base, op, r0, h, c0, w, hi - k - x, hi)
                  else Accumulated(acc, base, op, r0, h, c0, w, lo, lo + k + x)
    {
      AddNext(core, g, acc, r0, h, c0, w, lo, hi, if down then hi - 1 - k - x else lo + k + x, down, base, op);
      x := x + 1;
    }
  }

  lemma Restart(acc: array2<real>, base: seq<real>, op: Op, r0: nat, h: nat, c0: nat, w: nat, lo: int, hi: int)
    requires Accumulated(acc, base, op, r0, h, c0, w, lo, lo)
    ensures Accumulated(acc, base, op, r0, h, c0, w, hi, hi)
  {
  }

  method AddNext(core: Core, g: Grid, acc: array2<real>, r0: nat, h: nat, c0: nat, w: nat, ghost lo: nat,
                 ghost hi: nat, k: nat, ghost down: bool, ghost base: seq<real>, ghost op: Op)
    requires core.Valid() && Ready(core.plan, core.id, core.epoch, g, op, r0, r0 + h, c0, c0 + w) && lo <= k < hi <= g.n
    requires if down then Accumulated(acc, base, op, r0, h, c0, w, k + 1, hi)
               else Accumulated(acc, base, op, r0, h, c0, w, lo, k)
    modifies core`trace, acc
    ensures core.Valid() && old(core.trace) <= core.trace
    ensures if down then Accumulated(acc, base, op, r0, h, c0, w, k, hi)
              else Accumulated(acc, base, op, r0, h, c0, w, lo, k + 1)
  {
    hide Core.Valid, Ready, At, Op.Sum, Op.Term;
    AddProducts(core, g, acc, r0, h, c0, w, k, op);
    forall r, s {:trigger acc[r, s]} | 0 <= r < h && 0 <= s < w
      ensures acc[r, s] == At(base, op.oc + (r0 + r) * op.ldc + (c0 + s)) +
              op.Sum(r0 + r, c0 + s, if down then k else lo, if down then hi else k + 1)
    {
      if down { SumFirst(op, r0 + r, c0 + s, k, hi); } else { SumLast(op, r0 + r, c0 + s, lo, k); }
    }
  }

  lemma SumLast(op: Op, i: int, j: int, lo: int, k: int)
    requires lo <= k
    ensures op.Sum(i, j, lo, k + 1) == op.Term(i, j, k) + op.Sum(i, j, lo, k)
  {
  }

  /** The block taken from C, or set to zero. */
  method TakeBlock(core: Core, g: Grid, r0: nat, h: nat, c0: nat, w: nat, zero: bool, lo: nat, ghost op: Op)
    returns (acc: array2<real>)
    requires core.Valid() && Ready(core.plan, core.id, core.epoch, g, op, r0, r0 + h, c0, c0 + w)
    modifies core`trace
    ensures core.Valid() && old(core.trace) <= core.trace && fresh(acc)
    ensures Accumulated(acc, if zero then Zeros(|core.mem|) else core.mem, op, r0, h, c0, w, lo, lo)
  {
    hide Core.Valid;
    acc := new real[h, w];
    for r := 0 to h
      invariant core.Valid() && old(core.trace) <= core.trace
      invariant forall r', s | 0 <= r' < r && 0 <= s < w :: acc[r', s] == if zero then 0.0
                  else At(core.mem, op.oc + (r0 + r') * op.ldc + (c0 + s))
    {
      for s := 0 to w
        invariant core.Valid() && old(core.trace) <= core.trace
        invariant forall r', s' | 0 <= r' < h && 0 <= s' < w && (r' < r || (r' == r && s' < s)) ::
          acc[r', s'] == if zero then 0.0 else At(core.mem, op.oc + (r0 + r') * op.ldc + (c0 + s'))
      {
        if zero {
          acc[r, s] := 0.0;
        } else {
          acc[r, s] := LoadC(core, g, r0 + r, c0 + s, r0, r0 + h, c0, c0 + w, op);
        }
      }
    }
  }

  method LoadC(core: Core, g: Grid, r: nat, j: nat, ghost r0: nat, ghost r1: nat, ghost c0: nat, ghost c1: nat,
               ghost op: Op)
    returns (v: real)
    requires core.Valid() && Ready(core.plan, core.id, core.epoch, g, op, r0, r1, c0, c1) && r0 <= r < r1 &&
             c0 <= j < c1
    modifies core`trace
    ensures core.Valid() && old(core.trace) <= core.trace && v == At(core.mem, op.oc + r * op.ldc + j)
  {
    assert OwnedC(core.plan, core.id, core.epoch, g, r, j) && |core.mem| == core.plan.size;
    v := core.Load(g.C(r, j));
  }

  /** The block stored. */
  method StoreBlock(core: Core, g: Grid, acc: array2<real>, r0: nat, h: nat, c0: nat, w: nat, lo: nat, hi: nat,
                    ghost base: seq<real>, ghost op: Op)
    requires core.Valid() && Ready(core.plan, core.id, core.epoch, g, op, r0, r0 + h, c0, c0 + w)
    requires |base| == |core.mem| && Accumulated(acc, base, op, r0, h, c0, w, lo, hi)
    modifies core`trace, core`mem
    ensures core.Valid() && old(core.trace) <= core.trace && |core.mem| == old(|core.mem|)
    ensures Gains(op, base, old(core.mem), core.mem, Rect(op, |core.mem|, r0, r0 + h, c0, c0 + w), lo, hi)
  {
    hide Core.Valid, Gains;
    ghost var s0, size := core.mem, |core.mem|;
    GainsNothing(op, base, s0, lo, hi);
    RectEmpty(op, size, r0, r0, c0, c0 + w);
    for r := 0 to h
      invariant core.Valid() && old(core.trace) <= core.trace && |core.mem| == size
      invariant Gains(op, base, s0, core.mem, Rect(op, size, r0, r0 + r, c0, c0 + w), lo, hi)
    {
      RectEmpty(op, size, r0 + r, r0 + r + 1, c0, c0);
      ghost var D := Rect(op, size, r0, r0 + r, c0, c0 + w);
      assert D + {} == D;
      for s := 0 to w
        invariant core.Valid() && old(core.trace) <= core.trace && |core.mem| == size
        invariant Gains(op, base, s0, core.mem, D + Rect(op, size, r0 + r, r0 + r + 1, c0, c0 + s), lo, hi)
      {
        StoreC(core, g, r0 + r, c0 + s, r0, r0 + h, c0, c0 + w, acc[r, s], lo, hi, base, s0, D, op);
      }
      RectRows(op, size, r0, r0 + r, r0 + r + 1, c0, c0 + w);
    }
  }

  method StoreC(core: Core, g: Grid, r: nat, j: nat, ghost r0: nat, ghost r1: nat, ghost c0: nat, ghost c1: nat,
                v: real, ghost lo: nat, ghost hi: nat, ghost base: seq<real>, ghost s0: seq<real>, ghost D: set<nat>,
                ghost op: Op)
    requires core.Valid() && Ready(core.plan, core.id, core.epoch, g, op, r0, r1, c0, c1) && r0 <= r < r1 &&
             c0 <= j < c1
    requires v == At(base, op.oc + r * op.ldc + j) + op.Sum(r, j, lo, hi)
    requires Gains(op, base, s0, core.mem, D + Rect(op, |core.mem|, r, r + 1, c0, j), lo, hi)
    modifies core`trace, core`mem
    ensures core.Valid() && old(core.trace) <= core.trace && |core.mem| == old(|core.mem|)
    ensures Gains(op, base, s0, core.mem, D + Rect(op, |core.mem|, r, r + 1, c0, j + 1), lo, hi)
  {
    hide *;
    ghost var x := OwnC(core, g, r, j, r0, r1, c0, c1, op);
    ghost var t := core.mem;
    core.Store(g.C(r, j), v);
    GainsElement(op, base, s0, t, D, r, c0, j, x, v, lo, hi);
  }

  /** An element of the block is the core's own. */
  lemma OwnC(core: Core, g: Grid, r: nat, j: nat, r0: nat, r1: nat, c0: nat, c1: nat, op: Op) returns (x: nat)
    requires core.Valid() && Ready(core.plan, core.id, core.epoch, g, op, r0, r1, c0, c1) && r0 <= r < r1 &&
             c0 <= j < c1
    ensures x == g.C(r, j) == op.oc + r * op.ldc + j < |core.mem| && j < op.ldc &&
            core.plan.kind(core.epoch, x) == Owned(core.id)
  {
    assert OwnedC(core.plan, core.id, core.epoch, g, r, j);
    x := g.C(r, j);
  }

  lemma GainsElement(op: Op, base: seq<real>, s0: seq<real>, t: seq<real>, D: set<nat>, r: nat, c0: nat, j: nat,
                     x: nat, v: real, lo: int, hi: int)
    requires Gains(op, base, s0, t, D + Rect(op, |t|, r, r + 1, c0, j), lo, hi) && c0 <= j < op.ldc
    requires x == op.oc + r * op.ldc + j < |t| && v == At(base, x) + op.Sum(r, j, lo, hi)
    ensures Gains(op, base, s0, t[x := v], D + Rect(op, |t|, r, r + 1, c0, j + 1), lo, hi)
  {
    hide *;
    RectOne(op, |t|, r, j);
    RectCols(op, |t|, r, r + 1, c0, j, j + 1);
    GainsOne(op, base, s0, t, D + Rect(op, |t|, r, r + 1, c0, j), x, lo, hi);
    Regroup(D, Rect(op, |t|, r, r + 1, c0, j), {x});
    ElementGain(op, base, s0, t, D + Rect(op, |t|, r, r + 1, c0, j), r, j, x, lo, hi);
  }

  lemma ElementGain(op: Op, base: seq<real>, s0: seq<real>, t: seq<real>, D: set<nat>, r: nat, j: nat, x: nat, lo: int,
                    hi: int)
    requires Gains(op, base, s0, t, D, lo, hi) && x < |t| && op.Row(x) == r && op.Col(x) == j
    ensures |base| == |t| && base[x] + op.Gain(x, lo, hi) == At(base, x) + op.Sum(r, j, lo, hi)
  {
  }

  /** The whole of it. */
  method Block(core: Core, g: Grid, r0: nat, h: nat, c0: nat, w: nat, lo: nat, hi: nat, step: nat, down: bool,
               zero: bool, ghost op: Op)
    requires core.Valid() && Ready(core.plan, core.id, core.epoch, g, op, r0, r0 + h, c0, c0 + w)
    requires lo <= hi <= g.n && step > 0 && (hi - lo) % step == 0
    modifies core`trace, core`mem
    ensures core.Valid() && old(core.trace) <= core.trace && |core.mem| == old(|core.mem|)
    ensures Gains(op, if zero then Zeros(|core.mem|) else old(core.mem), old(core.mem), core.mem,
                  Rect(op, |core.mem|, r0, r0 + h, c0, c0 + w), lo, hi)
  {
    hide Core.Valid, Ready, Accumulated, Gains;
    ghost var base := if zero then Zeros(|core.mem|) else core.mem;
    var acc := TakeBlock(core, g, r0, h, c0, w, zero, lo, op);
    AddAll(core, g, acc, r0, h, c0, w, lo, hi, step, down, base, op);
    StoreBlock(core, g, acc, r0, h, c0, w, lo, hi, base, op);
  }
}
