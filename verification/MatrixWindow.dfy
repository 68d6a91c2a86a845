/** Rectangular windows into row-major arrays with a stride, and what a matrix product
    adds to them, over exact arithmetic. */
module MatrixWindow {
  import opened Powers

  function At(s: seq<real>, i: int): real {
    if 0 <= i < |s| then s[i] else 0.0
  }

  lemma AtIs(s: seq<real>, i: nat)
    requires i < |s|
    ensures At(s, i) == s[i]
  {
  }

  /** Base positions and strides of a, b and c, with the contents of a and b.  The
      elements of c are addressed by their position in the whole array. */
  datatype Op = Op(a: seq<real>, oa: nat, lda: nat, b: seq<real>, ob: nat, ldb: nat, oc: nat, ldc: nat) {

    /** The row of position x of c, or -1 for a position before the window. */
    function Row(x: nat): (r: int)
      ensures x < oc ==> r == -1
      ensures x >= oc ==> r >= 0
    {
      if x < oc then -1 else if ldc == 0 then x else (x - oc) / ldc
    }

    function Col(x: nat): (r: int)
      ensures x >= oc && ldc > 0 ==> 0 <= r < ldc
    {
      if x < oc || ldc == 0 then 0 else (x - oc) % ldc
    }

    predicate In(x: nat, r0: int, r1: int, c0: int, c1: int) {
      0 <= r0 <= Row(x) < r1 && c0 <= Col(x) < c1
    }

    function Term(i: int, j: int, k: int): real {
      At(a, oa + i * lda + k) * At(b, ob + k * ldb + j)
    }

    lemma Factors(i: int, j: int, k: int)
      ensures Term(i, j, k) == At(a, oa + i * lda + k) * At(b, ob + k * ldb + j)
    {
    }

    /** The products of row i of a and column j of b from lo to hi, added up. */
    function Sum(i: int, j: int, lo: int, hi: int): real
      decreases hi - lo
    {
      if hi <= lo then 0.0 else Sum(i, j, lo, hi - 1) + Term(i, j, hi - 1)
    }

    /** What the product adds at position x. */
    function Gain(x: nat, lo: int, hi: int): real { Sum(Row(x), Col(x), lo, hi) }

    /** The product of rows [r0, r1) with columns [c0, c1), over [lo, hi), is what t has
        more than s; nothing else is different. */
    ghost predicate Gained(s: seq<real>, t: seq<real>, r0: int, r1: int, c0: int, c1: int, lo: int, hi: int) {
      |s| == |t| && forall x | 0 <= x < |s| :: t[x] == s[x] + if In(x, r0, r1, c0, c1) then Gain(x, lo, hi) else 0.0
    }

    /** The operands moved to row i and depth k of a, depth k and column j of b, and row i
        and column j of c. */
    function Sub(i: nat, j: nat, k: nat): Op {
      Op(a, oa + i * lda + k, lda, b, ob + k * ldb + j, ldb, oc + i * ldc + j, ldc)
    }

    /** The window of m by n elements lies within a c of the given length, with a and b to match. */
    predicate Fits(m: nat, n: nat, p: nat, length: nat) {
      && n <= ldc
      && (m > 0 && n > 0 ==> oc + (m - 1) * ldc + n <= length)
      && (m > 0 && p > 0 ==> oa + (m - 1) * lda + p <= |a|)
      && (p > 0 && n > 0 ==> ob + (p - 1) * ldb + n <= |b|)
    }

    lemma RowCol(i: nat, j: nat)
      requires j < ldc
      ensures Row(oc + i * ldc + j) == i && Col(oc + i * ldc + j) == j
    {
      DivModUnique(i * ldc + j, ldc, i, j);
    }

    lemma RowColBack(x: nat)
      requires ldc > 0 && x >= oc
      ensures x == oc + Row(x) * ldc + Col(x)
    {
    }

    lemma InBounds(m: nat, n: nat, p: nat, length: nat, i: nat, j: nat, k: nat)
      requires Fits(m, n, p, length)
      ensures i < m && j < n ==> oc + i * ldc + j < length
      ensures i < m && k < p ==> oa + i * lda + k < |a|
      ensures k < p && j < n ==> ob + k * ldb + j < |b|
    {
      if i < m {
        ProductMonotone(i, m - 1, ldc);
        ProductMonotone(i, m - 1, lda);
      }
      if k < p { ProductMonotone(k, p - 1, ldb); }
    }

    /** A window within the window fits. */
    lemma SubFits(m: nat, n: nat, p: nat, length: nat, i: nat, j: nat, k: nat, m': nat, n': nat, p': nat)
      requires Fits(m, n, p, length) && i + m' <= m && j + n' <= n && k + p' <= p
      ensures Sub(i, j, k).Fits(m', n', p', length)
    {
      if m' > 0 {
        ProductMonotone(i + m' - 1, m - 1, ldc);
        ProductMonotone(i + m' - 1, m - 1, lda);
        assert (i + m' - 1) * ldc == i * ldc + (m' - 1) * ldc;
        assert (i + m' - 1) * lda == i * lda + (m' - 1) * lda;
      }
      if p' > 0 {
        ProductMonotone(k + p' - 1, p - 1, ldb);
        assert (k + p' - 1) * ldb == k * ldb + (p' - 1) * ldb;
      }
    }

    lemma NoSum(i: int, j: int)
      ensures Sum(i, j, 0, 0) == 0.0
    {
    }

    lemma SumNext(i: int, j: int, k: nat)
      ensures Sum(i, j, 0, k + 1) == Sum(i, j, 0, k) + Term(i, j, k)
    {
    }

    /** The sum of the first p products, step by step. */
    lemma {:induction false} SumSteps(i: nat, j: nat, p: nat) returns (sums: seq<real>)
      ensures |sums| == p + 1 && sums[0] == 0.0 && sums[p] == Sum(i, j, 0, p)
      ensures forall k | 0 <= k < p ::
                sums[k + 1] == sums[k] + At(a, oa + i * lda + k) * At(b, ob + k * ldb + j)
      decreases p
    {
      hide Term, Sum;
      if p == 0 {
        SumNone(i, j);
        sums := [0.0];
      } else {
        var before := SumSteps(i, j, p - 1);
        sums := before + [Sum(i, j, 0, p)];
        SumNext(i, j, p - 1);
        Factors(i, j, p - 1);
        assert forall k | 0 <= k < p :: sums[k] == before[k];
      }
    }

    lemma SumNone(i: int, j: int)
      ensures Sum(i, j, 0, 0) == 0.0
    {
    }

    lemma ProductNonNegative(x: nat, y: nat)
      ensures x * y >= 0
    {
    }

    /** What Gained means for element (i, j) of the window: the products of row i of a and column j of
        b are added to it, one after the other. */
    lemma GainedAt(s: seq<real>, t: seq<real>, m: nat, n: nat, p: nat, i: nat, j: nat) returns (sums: seq<real>)
      requires Gained(s, t, 0, m, 0, n, 0, p) && Fits(m, n, p, |s|) && i < m && j < n
      ensures |sums| == p + 1 && sums[0] == 0.0
      ensures forall k | 0 <= k < p ::
                sums[k + 1] == sums[k] + At(a, oa + i * lda + k) * At(b, ob + k * ldb + j)
      ensures 0 <= oc + i * ldc + j < |t| == |s| && t[oc + i * ldc + j] == s[oc + i * ldc + j] + sums[p]
    {
      hide Sum, Term;
      ProductNonNegative(i, ldc);
      var x := oc + i * ldc + j;
      RowCol(i, j);
      InBounds(m, n, p, |s|, i, j, 0);
      hide Row, Col;
      sums := SumSteps(i, j, p);
    }

    /** And nothing else changes. */
    lemma GainedElsewhere(s: seq<real>, t: seq<real>, m: nat, n: nat, p: nat, x: nat)
      requires Gained(s, t, 0, m, 0, n, 0, p) && x < |s| && 0 < n <= ldc
      requires x < oc || (x - oc) / ldc >= m || (x - oc) % ldc >= n
      ensures |t| == |s| && t[x] == s[x]
    {
      hide Sum;
    }

    /** Where c is does not matter to the sums. */
    lemma {:induction false} SumElsewhere(oc': nat, ldc': nat, i: int, j: int, lo: int, hi: int)
      ensures this.(oc := oc', ldc := ldc').Sum(i, j, lo, hi) == Sum(i, j, lo, hi)
      decreases hi - lo
    {
      if lo < hi { SumElsewhere(oc', ldc', i, j, lo, hi - 1); }
    }

    lemma {:induction false} SumSplit(i: int, j: int, lo: int, mid: int, hi: int)
      requires lo <= mid <= hi
      ensures Sum(i, j, lo, hi) == Sum(i, j, lo, mid) + Sum(i, j, mid, hi)
      decreases hi - mid
    {
      if mid < hi { SumSplit(i, j, lo, mid, hi - 1); }
    }

    lemma SubTerm(i: nat, j: nat, k: nat, u: int, v: int, w: int)
      ensures Sub(i, j, k).Term(u, v, w) == Term(i + u, j + v, k + w)
    {
      assert i * lda + u * lda == (i + u) * lda;
      assert k * ldb + w * ldb == (k + w) * ldb;
    }

    lemma {:induction false} SubSum(i: nat, j: nat, k: nat, u: int, v: int, hi: int)
      ensures Sub(i, j, k).Sum(u, v, 0, hi) == Sum(i + u, j + v, k, k + hi)
      decreases hi
    {
      if hi > 0 {
        SubSum(i, j, k, u, v, hi - 1);
        SubTerm(i, j, k, u, v, hi - 1);
        hide Term, Sub;
      }
    }

    /** A window at (i, j) is the rectangle of the whole at (i, j). */
    lemma SubIn(i: nat, j: nat, k: nat, m: nat, n: nat, x: nat)
      requires j + n <= ldc
      ensures Sub(i, j, k).In(x, 0, m, 0, n) <==> In(x, i, i + m, j, j + n)
      ensures In(x, i, i + m, j, j + n) ==> Row(x) == i + Sub(i, j, k).Row(x) && Col(x) == j + Sub(i, j, k).Col(x)
    {
      hide *;
      if In(x, i, i + m, j, j + n) { WholeToSub(i, j, k, m, n, x); }
      if Sub(i, j, k).In(x, 0, m, 0, n) { SubToWhole(i, j, k, m, n, x); }
    }

    lemma WholeToSub(i: nat, j: nat, k: nat, m: nat, n: nat, x: nat)
      requires j + n <= ldc && In(x, i, i + m, j, j + n)
      ensures Sub(i, j, k).In(x, 0, m, 0, n) && Row(x) == i + Sub(i, j, k).Row(x) && Col(x) == j + Sub(i, j, k).Col(x)
    {
      hide Row, Col;
      RowColBack(x);
      var u, v := Row(x) - i, Col(x) - j;
      assert x == Sub(i, j, k).oc + u * ldc + v by { assert (i + u) * ldc == i * ldc + u * ldc; }
      Sub(i, j, k).RowCol(u, v);
    }

    lemma SubToWhole(i: nat, j: nat, k: nat, m: nat, n: nat, x: nat)
      requires j + n <= ldc && Sub(i, j, k).In(x, 0, m, 0, n)
      ensures In(x, i, i + m, j, j + n)
    {
      hide Row, Col;
      var s := Sub(i, j, k);
      s.RowColBack(x);
      var u, v := s.Row(x), s.Col(x);
      assert x == oc + (i + u) * ldc + (j + v) by { assert (i + u) * ldc == i * ldc + u * ldc; }
      RowCol(i + u, j + v);
    }

    /** What a product of a window gains, seen from the whole. */
    lemma SubGained(i: nat, j: nat, k: nat, m: nat, n: nat, p: nat, s: seq<real>, t: seq<real>)
      requires j + n <= ldc && Sub(i, j, k).Gained(s, t, 0, m, 0, n, 0, p)
      ensures Gained(s, t, i, i + m, j, j + n, k, k + p)
    {
      var sub := Sub(i, j, k);
      forall x | 0 <= x < |s| ensures t[x] == s[x] + if In(x, i, i + m, j, j + n) then Gain(x, k, k + p) else 0.0 {
        SubIn(i, j, k, m, n, x);
        if In(x, i, i + m, j, j + n) { SubSum(i, j, k, sub.Row(x), sub.Col(x), p); }
      }
    }

    /** As Gained, while a nest of loops is under way: rows below i are done across all n
        columns, and the h rows from i are done up to column j. */
    ghost predicate Partly(s: seq<real>, t: seq<real>, i: int, h: int, j: int, n: int, lo: int, hi: int) {
      |s| == |t| && forall x | 0 <= x < |s| ::
        t[x] == s[x] + if In(x, 0, i, 0, n) || In(x, i, i + h, 0, j) then Gain(x, lo, hi) else 0.0
    }

    lemma PartlyStart(s: seq<real>, h: int, n: int, lo: int, hi: int)
      ensures Partly(s, s, 0, h, 0, n, lo, hi)
    {
    }

    lemma PartlyNext(s: seq<real>, t: seq<real>, u: seq<real>, i: nat, h: nat, j: nat, w: nat, n: nat, lo: int, hi: int)
      requires Partly(s, t, i, h, j, n, lo, hi) && Gained(t, u, i, i + h, j, j + w, lo, hi)
      ensures Partly(s, u, i, h, j + w, n, lo, hi)
    {
      hide Row, Col, Gain;
    }

    lemma PartlyRow(s: seq<real>, t: seq<real>, i: nat, h: nat, h': nat, n: nat, lo: int, hi: int)
      requires Partly(s, t, i, h, n, n, lo, hi)
      ensures Partly(s, t, i + h, h', 0, n, lo, hi)
    {
      hide Row, Col, Gain;
    }

    lemma PartlyDone(s: seq<real>, t: seq<real>, m: nat, h: nat, n: nat, lo: int, hi: int)
      requires Partly(s, t, m, h, 0, n, lo, hi)
      ensures Gained(s, t, 0, m, 0, n, lo, hi)
    {
      hide Row, Col, Gain;
    }

    /** Rows below mb, and then the rest of the rows. */
    lemma StackRows(s: seq<real>, t: seq<real>, u: seq<real>, mb: nat, m: nat, c0: int, c1: int, lo: int, hi: int)
      requires mb <= m && Gained(s, t, 0, mb, c0, c1, lo, hi) && Gained(t, u, mb, m, c0, c1, lo, hi)
      ensures Gained(s, u, 0, m, c0, c1, lo, hi)
    {
      hide Row, Col, Gain;
    }

    /** Columns below j, and then some more. */
    lemma StackCols(s: seq<real>, t: seq<real>, u: seq<real>, r0: int, r1: int, c0: int, j: int, c1: int, lo: int,
                    hi: int)
      requires c0 <= j <= c1 && Gained(s, t, r0, r1, c0, j, lo, hi) && Gained(t, u, r0, r1, j, c1, lo, hi)
      ensures Gained(s, u, r0, r1, c0, c1, lo, hi)
    {
      hide Row, Col, Gain;
    }

    /** Two products over adjacent depths are one product. */
    lemma Deeper(s: seq<real>, t: seq<real>, u: seq<real>, r0: int, r1: int, c0: int, c1: int, lo: int, mid: int,
                 hi: int)
      requires lo <= mid <= hi && Gained(s, t, r0, r1, c0, c1, lo, mid) && Gained(t, u, r0, r1, c0, c1, mid, hi)
      ensures Gained(s, u, r0, r1, c0, c1, lo, hi)
    {
      forall x | 0 <= x < |s| ensures Gain(x, lo, hi) == Gain(x, lo, mid) + Gain(x, mid, hi) {
        SumSplit(Row(x), Col(x), lo, mid, hi);
      }
      hide Row, Col, Gain;
    }

    /** An empty product: no depth, no rows or no columns. */
    lemma NoGain(s: seq<real>, r0: int, r1: int, c0: int, c1: int, lo: int, hi: int)
      requires hi <= lo || r1 <= r0 || c1 <= c0
      ensures Gained(s, s, r0, r1, c0, c1, lo, hi)
    {
    }

    /** Adding to the one element at row i, column j. */
    lemma OneElement(s: seq<real>, i: nat, j: nat, lo: int, hi: int)
      requires j < ldc && oc + i * ldc + j < |s|
      ensures var x := oc + i * ldc + j; Gained(s, s[x := s[x] + Sum(i, j, lo, hi)], i, i + 1, j, j + 1, lo, hi)
    {
      hide Row, Col;
      var x0 := oc + i * ldc + j;
      RowCol(i, j);
      forall x {:trigger s[x]} | 0 <= x < |s| && In(x, i, i + 1, j, j + 1) ensures x == x0 { RowColBack(x); }
    }
  }
}
