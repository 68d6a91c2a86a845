/** The shift register that scatters the free frames (LFSR_NEXT in riscv_test.h):
    from any non-zero start it visits all 63 values before it repeats. */
module Lfsr {

  /** The number of pages under test, which must be the period of the register. */
  const MAX_TEST_PAGES := 63

  /** ((((x)^((x)>>1)) & 1) << 5) | ((x) >> 1): the new top bit is set when the two
      lowest bits differ. */
  function Next(x: nat): (r: nat)
    ensures 1 <= x < 64 ==> 1 <= r < 64
  {
    x / 2 + if x % 4 == 1 || x % 4 == 2 then 32 else 0
  }

  function Orbit(x: nat, k: nat): (r: nat)
    ensures 1 <= x < 64 ==> 1 <= r < 64
  {
    if k == 0 then x else Next(Orbit(x, k - 1))
  }

  /** The top bit of the new value, with the second lowest of the old, gives the lowest. */
  lemma NextParts(x: nat)
    requires x < 64
    ensures Next(x) % 32 == x / 2 && x == 2 * (x / 2) + x % 2
    ensures Next(x) >= 32 <==> x % 2 != x / 2 % 2
  {
    assert x % 4 == x / 2 % 2 * 2 + x % 2;
  }

  lemma NextInjective(x: nat, y: nat)
    requires x < 64 && y < 64 && Next(x) == Next(y)
    ensures x == y
  {
    NextParts(x);
    NextParts(y);
  }

  lemma {:induction false} OrbitAdd(x: nat, i: nat, j: nat)
    ensures Orbit(Orbit(x, i), j) == Orbit(x, i + j)
  {
    if j > 0 { OrbitAdd(x, i, j - 1); }
  }

  lemma {:induction false} OrbitShift(x: nat, y: nat, i: nat)
    requires 1 <= x < 64 && 1 <= y < 64 && Orbit(x, i) == Orbit(y, i)
    ensures x == y
  {
    if i > 0 {
      NextInjective(Orbit(x, i - 1), Orbit(y, i - 1));
      OrbitShift(x, y, i - 1);
    }
  }

  lemma OrbitZero()
    ensures forall x :: Orbit(x, 0) == x
  {
  }

  /** None of x and its next k - 1 successors is 1. */
  predicate Avoids(x: nat, k: nat)
    decreases k
  {
    k == 0 || (x != 1 && Avoids(Next(x), k - 1))
  }

  lemma {:induction false} AvoidsAt(x: nat, k: nat, i: nat)
    requires Avoids(x, k) && i < k
    ensures Orbit(x, i) != 1
    decreases k
  {
    if i > 0 {
      AvoidsAt(Next(x), k - 1, i - 1);
      OrbitAdd(x, 1, i - 1);
      assert Orbit(x, 1) == Next(Orbit(x, 0)) == Next(x);
    }
  }

  /** x is not 1 and y comes next. */
  predicate Step(x: nat, y: nat) { x != 1 && y == Next(x) }

  lemma Four(x: nat, a: nat, b: nat, c: nat, y: nat, k: nat)
    requires Step(x, a) && Step(a, b) && Step(b, c) && Step(c, y) && Avoids(y, k)
    ensures Avoids(x, k + 4)
  {
    hide Next;
    assert Avoids(c, k + 1) && Avoids(b, k + 2) && Avoids(a, k + 3);
  }

  lemma LastSteps()
    ensures Avoids(7, 2)
  {
  }

  lemma SecondHalf()
    ensures Avoids(36, 30)
  {
    hide Avoids;
    LastSteps();
    Four(62, 63, 31, 15, 7, 2);
    Four(42, 53, 58, 61, 62, 6);
    Four(44, 22, 43, 21, 42, 10);
    Four(13, 38, 51, 25, 44, 14);
    Four(29, 46, 55, 27, 13, 18);
    Four(26, 45, 54, 59, 29, 22);
    Four(36, 18, 41, 52, 26, 26);
  }

  lemma LongWay()
    ensures Avoids(32, 62)
  {
    hide Avoids;
    SecondHalf();
    Four(14, 39, 19, 9, 36, 30);
    Four(34, 49, 56, 28, 14, 34);
    Four(47, 23, 11, 5, 34, 38);
    Four(50, 57, 60, 30, 47, 42);
    Four(40, 20, 10, 37, 50, 46);
    Four(12, 6, 35, 17, 40, 50);
    Four(2, 33, 48, 24, 12, 54);
    Four(32, 16, 8, 4, 2, 58);
  }

  lemma StepFirst(k: nat)
    ensures Orbit(32, k) == Orbit(1, k + 1)
  {
    hide Orbit;
    OrbitAdd(1, 1, k);
    FirstStep();
  }

  lemma FirstStep()
    ensures Orbit(1, 1) == 32
  {
    assert Orbit(1, 0) == 1;
  }

  /** From 1, no value comes back in fewer than 63 steps. */
  lemma OneDistinct(i: nat, j: nat)
    requires i < j < MAX_TEST_PAGES
    ensures Orbit(1, i) != Orbit(1, j)
  {
    hide Avoids, Orbit;
    LongWay();
    OrbitAdd(1, j - i, i);
    AvoidsAt(32, 62, j - i - 1);
    StepFirst(j - i - 1);
    if Orbit(1, i) == Orbit(1, j) { OrbitShift(1, Orbit(1, j - i), i); }
  }

  ghost function Visited(k: nat): set<int> { set i | 0 <= i < k :: Orbit(1, i) as int }

  lemma {:induction false} OrbitCount(k: nat)
    requires k <= MAX_TEST_PAGES
    ensures |Visited(k)| == k
  {
    hide Orbit;
    if k > 0 {
      OrbitCount(k - 1);
      forall i | 0 <= i < k - 1 ensures Orbit(1, i) != Orbit(1, k - 1) { OneDistinct(i, k - 1); }
      assert Visited(k) == Visited(k - 1) + {Orbit(1, k - 1)};
    }
  }

  /** The numbers from 1 to k. */
  ghost function UpTo(k: nat): set<int> {
    if k == 0 then {} else UpTo(k - 1) + {k}
  }

  lemma {:induction false} RangeCount(k: nat)
    ensures |UpTo(k)| == k && forall x :: x in UpTo(k) <==> 1 <= x <= k
  {
    if k > 0 { RangeCount(k - 1); }
  }

  lemma SubsetOfSameSize(s: set<int>, t: set<int>)
    requires s <= t && |s| == |t|
    ensures s == t
  {
    assert |t - s| == |t| - |s|;
  }

  /** Every start is on the orbit of 1. */
  lemma OnOrbit(x: nat) returns (i: nat)
    requires 1 <= x < 64
    ensures i < MAX_TEST_PAGES && Orbit(1, i) == x
  {
    OrbitCount(MAX_TEST_PAGES);
    RangeCount(63);
    SubsetOfSameSize(Visited(MAX_TEST_PAGES), UpTo(63));
    assert x in Visited(MAX_TEST_PAGES);
    i :| 0 <= i < MAX_TEST_PAGES && Orbit(1, i) == x;
  }

  /** From any start the first 63 values are distinct. */
  lemma Distinct(x: nat, i: nat, j: nat)
    requires 1 <= x < 64 && i < j < MAX_TEST_PAGES
    ensures Orbit(x, i) != Orbit(x, j)
  {
    hide Orbit;
    if Orbit(x, i) == Orbit(x, j) {
      var s := OnOrbit(x);
      OrbitAdd(x, j - i, i);
      OrbitShift(x, Orbit(x, j - i), i);
      OrbitAdd(1, s, j - i);
      OrbitAdd(1, j - i, s);
      OrbitShift(1, Orbit(1, j - i), s);
      OneDistinct(0, j - i);
      OrbitZero();
    }
  }
}
