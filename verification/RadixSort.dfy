/** rsort.c: least-significant-digit radix sort of 32-bit words, eight bits a pass,
    with counting and scattering unrolled by four. */
module RadixSort {
  import opened Powers

  const LOG_BASE := 8
  const BASE := 256

  type Word = x: int | 0 <= x < 0x1_0000_0000

  function Digit(x: Word, shift: nat): (d: nat)
    ensures d < BASE
  {
    x / Pow2(shift) % BASE
  }

  // ---- the specification of a pass

  /** The elements of s whose digit is d, in their order in s. */
  function WithDigit(s: seq<Word>, shift: nat, d: nat): seq<Word> {
    if s == [] then []
    else
      var last := s[|s| - 1];
      WithDigit(s[..|s| - 1], shift, d) + if Digit(last, shift) == d then [last] else []
  }

  /** s dealt out by digit: those with digit 0, then 1, up to k - 1. */
  function Dealt(s: seq<Word>, shift: nat, k: nat): seq<Word> {
    if k == 0 then [] else Dealt(s, shift, k - 1) + WithDigit(s, shift, k - 1)
  }

  function Pass(s: seq<Word>, shift: nat): seq<Word> { Dealt(s, shift, BASE) }

  function Passes(s: seq<Word>, k: nat): seq<Word> {
    if k == 0 then s else Pass(Passes(s, k - 1), LOG_BASE * (k - 1))
  }

  function Count(s: seq<Word>, shift: nat, d: nat): nat { |WithDigit(s, shift, d)| }

  /** Where digit d starts in the dealt sequence. */
  function Start(s: seq<Word>, shift: nat, d: nat): nat { |Dealt(s, shift, d)| }

  // ---- a pass permutes

  lemma {:induction false} WithDigitMultiset(s: seq<Word>, shift: nat, d: nat, x: Word)
    ensures multiset(WithDigit(s, shift, d))[x] == if Digit(x, shift) == d then multiset(s)[x] else 0
  {
    if s != [] {
      assert s == s[..|s| - 1] + [s[|s| - 1]];
      WithDigitMultiset(s[..|s| - 1], shift, d, x);
    }
  }

  lemma {:induction false} DealtMultiset(s: seq<Word>, shift: nat, k: nat, x: Word)
    ensures multiset(Dealt(s, shift, k))[x] == if Digit(x, shift) < k then multiset(s)[x] else 0
  {
    hide WithDigit, Digit;
    if k > 0 {
      DealtMultiset(s, shift, k - 1, x);
      WithDigitMultiset(s, shift, k - 1, x);
    }
  }

  lemma PassPermutes(s: seq<Word>, shift: nat)
    ensures multiset(Pass(s, shift)) == multiset(s)
    ensures |Pass(s, shift)| == |s|
  {
    forall x: Word ensures multiset(Pass(s, shift))[x] == multiset(s)[x] {
      DealtMultiset(s, shift, BASE, x);
    }
    var p := Pass(s, shift);
    assert multiset(p) == multiset(s);
    assert |p| == |multiset(p)| == |s|;
  }

  // ---- a pass is stable

  lemma {:induction false} WithDigitConcat(s: seq<Word>, t: seq<Word>, shift: nat, d: nat)
    ensures WithDigit(s + t, shift, d) == WithDigit(s, shift, d) + WithDigit(t, shift, d)
  {
    if t == [] {
      assert s + t == s;
    } else {
      assert (s + t)[..|s + t| - 1] == s + t[..|t| - 1];
      WithDigitConcat(s, t[..|t| - 1], shift, d);
    }
  }

  lemma {:induction false} WithDigitTwice(s: seq<Word>, shift: nat, d: nat, d': nat)
    ensures WithDigit(WithDigit(s, shift, d), shift, d') == if d == d' then WithDigit(s, shift, d) else []
  {
    if s != [] {
      var front, last := s[..|s| - 1], s[|s| - 1];
      WithDigitTwice(front, shift, d, d');
      var kept := if Digit(last, shift) == d then [last] else [];
      WithDigitConcat(WithDigit(front, shift, d), kept, shift, d');
      assert [last][..0] == [];
      assert WithDigit([last], shift, d') == if Digit(last, shift) == d' then [last] else [];
    }
  }

  lemma WithDigitNone(shift: nat, d: nat)
    ensures WithDigit([], shift, d) == []
  {
  }

  lemma {:induction false} DealtStable(s: seq<Word>, shift: nat, k: nat, d: nat)
    ensures WithDigit(Dealt(s, shift, k), shift, d) == if d < k then WithDigit(s, shift, d) else []
  {
    hide WithDigit, Digit;
    if k == 0 {
      WithDigitNone(shift, d);
    } else {
      DealtStable(s, shift, k - 1, d);
      WithDigitConcat(Dealt(s, shift, k - 1), WithDigit(s, shift, k - 1), shift, d);
      WithDigitTwice(s, shift, k - 1, d);
    }
  }

  /** Elements with the same digit keep their order. */
  lemma PassStable(s: seq<Word>, shift: nat, d: nat)
    requires d < BASE
    ensures WithDigit(Pass(s, shift), shift, d) == WithDigit(s, shift, d)
  {
    DealtStable(s, shift, BASE, d);
  }

  // ---- where an element lands

  lemma {:induction false} WithDigitAt(s: seq<Word>, shift: nat, i: nat)
    requires i < |s|
    ensures var d := Digit(s[i], shift);
            Count(s[..i], shift, d) < Count(s, shift, d) && WithDigit(s, shift, d)[Count(s[..i], shift, d)] == s[i]
  {
    var last := |s| - 1;
    if i < last {
      WithDigitAt(s[..last], shift, i);
      assert s[..last][..i] == s[..i];
    }
  }

  lemma {:induction false} DealtPrefix(s: seq<Word>, shift: nat, k: nat, k': nat)
    requires k <= k'
    ensures Dealt(s, shift, k) <= Dealt(s, shift, k')
  {
    if k < k' { DealtPrefix(s, shift, k, k' - 1); }
  }

  lemma DealtNext(s: seq<Word>, shift: nat, k: nat)
    ensures Dealt(s, shift, k + 1) == Dealt(s, shift, k) + WithDigit(s, shift, k)
  {
  }

  /** A pass puts s[i] behind all smaller digits and all earlier equal ones. */
  lemma Lands(s: seq<Word>, shift: nat, i: nat)
    requires i < |s|
    ensures var d := Digit(s[i], shift);
            var y := Start(s, shift, d) + Count(s[..i], shift, d);
            y < Start(s, shift, d + 1) <= |Pass(s, shift)| && Pass(s, shift)[y] == s[i]
  {
    hide Digit, WithDigit, Dealt;
    var d := Digit(s[i], shift);
    WithDigitAt(s, shift, i);
    DealtNext(s, shift, d);
    DealtPrefix(s, shift, d + 1, BASE);
  }

  // ---- least significant digit first sorts

  function Low(x: Word, m: nat): (r: nat)
    requires m > 0
    ensures r < m
  {
    x % m
  }

  ghost predicate SortedMod(s: seq<Word>, m: nat)
    requires m > 0
  {
    forall i, j | 0 <= i < j < |s| :: Low(s[i], m) <= Low(s[j], m)
  }

  lemma {:induction false} WithDigitSorted(s: seq<Word>, shift: nat, d: nat, m: nat)
    requires m > 0 && SortedMod(s, m)
    ensures SortedMod(WithDigit(s, shift, d), m)
    ensures forall x | x in WithDigit(s, shift, d) :: Digit(x, shift) == d && x in s
  {
    hide Low, Digit;
    if s != [] {
      var front, last := s[..|s| - 1], s[|s| - 1];
      WithDigitSorted(front, shift, d, m);
      forall x | x in front ensures Low(x, m) <= Low(last, m) {
        var i :| 0 <= i < |front| && front[i] == x;
        assert Low(s[i], m) <= Low(s[|s| - 1], m);
      }
    }
  }

  lemma DigitAbove(x: Word, shift: nat)
    ensures Low(x, Pow2(shift + LOG_BASE)) == Low(x, Pow2(shift)) + Pow2(shift) * Digit(x, shift)
  {
    Pow2Add(shift, LOG_BASE);
    Pow2Values();
    NextDigit(x, Pow2(shift), BASE);
  }

  lemma HigherDigitWins(r: nat, d: nat, r': nat, d': nat, m: nat)
    requires r < m && d < d'
    ensures r + m * d <= r' + m * d'
  {
    ProductMonotone(d + 1, d', m);
    assert m * (d + 1) == m * d + m;
  }

  lemma DigitOrder(x: Word, y: Word, shift: nat)
    ensures Digit(x, shift) < Digit(y, shift) ||
            (Digit(x, shift) == Digit(y, shift) && Low(x, Pow2(shift)) <= Low(y, Pow2(shift))) ==>
              Low(x, Pow2(shift + LOG_BASE)) <= Low(y, Pow2(shift + LOG_BASE))
  {
    hide Digit, Pow2;
    DigitAbove(x, shift);
    DigitAbove(y, shift);
    if Digit(x, shift) < Digit(y, shift) {
      HigherDigitWins(Low(x, Pow2(shift)), Digit(x, shift), Low(y, Pow2(shift)), Digit(y, shift), Pow2(shift));
    }
  }

  lemma {:induction false} DealtSorted(s: seq<Word>, shift: nat, k: nat)
    requires SortedMod(s, Pow2(shift))
    ensures SortedMod(Dealt(s, shift, k), Pow2(shift + LOG_BASE))
    ensures forall x | x in Dealt(s, shift, k) :: Digit(x, shift) < k
  {
    hide Low, Digit, WithDigit;
    if k > 0 {
      var front, back := Dealt(s, shift, k - 1), WithDigit(s, shift, k - 1);
      DealtSorted(s, shift, k - 1);
      WithDigitSorted(s, shift, k - 1, Pow2(shift));
      forall i, j | 0 <= i < j < |front + back|
        ensures Low((front + back)[i], Pow2(shift + LOG_BASE)) <= Low((front + back)[j], Pow2(shift + LOG_BASE))
      {
        var x, y := (front + back)[i], (front + back)[j];
        if j >= |front| {
          assert y == back[j - |front|];
          assert y in back;
          if i < |front| { assert x in front; } else { assert x == back[i - |front|]; }
          DigitOrder(x, y, shift);
        }
      }
    }
  }

  lemma {:induction false} PassesSort(s: seq<Word>, k: nat)
    ensures multiset(Passes(s, k)) == multiset(s) && |Passes(s, k)| == |s|
    ensures SortedMod(Passes(s, k), Pow2(LOG_BASE * k))
  {
    hide Dealt, WithDigit, Digit;
    if k > 0 {
      PassesSort(s, k - 1);
      PassPermutes(Passes(s, k - 1), LOG_BASE * (k - 1));
      DealtSorted(Passes(s, k - 1), LOG_BASE * (k - 1), BASE);
    }
  }

  ghost predicate Sorted(s: seq<Word>) {
    forall i, j | 0 <= i < j < |s| :: s[i] <= s[j]
  }

  /** Four passes of eight bits sort 32-bit words. */
  lemma FourPassesSort(s: seq<Word>)
    ensures Sorted(Passes(s, 4)) && multiset(Passes(s, 4)) == multiset(s)
  {
    PassesSort(s, 4);
    Pow2Values();
    SortedMod32(Passes(s, 4));
  }

  lemma SortedMod32(s: seq<Word>)
    requires SortedMod(s, 0x1_0000_0000)
    ensures Sorted(s)
  {
    forall i, j | 0 <= i < j < |s| ensures s[i] <= s[j] {
      assert Low(s[i], 0x1_0000_0000) <= Low(s[j], 0x1_0000_0000);
    }
  }

  // ---- counting

  lemma CountNext(s: seq<Word>, shift: nat, p: nat, d: nat)
    requires p < |s|
    ensures Count(s[..p + 1], shift, d) == Count(s[..p], shift, d) + if Digit(s[p], shift) == d then 1 else 0
  {
    assert s[..p + 1][..p] == s[..p];
  }

  lemma StartNext(s: seq<Word>, shift: nat, d: nat)
    ensures Start(s, shift, d + 1) == Start(s, shift, d) + Count(s, shift, d)
  {
  }

  /** bucket[d] is the number of elements with digit d among the first p. */
  ghost predicate Counted(bucket: seq<nat>, s: seq<Word>, shift: nat, p: nat) {
    |bucket| == BASE && p <= |s| && forall d | 0 <= d < BASE :: bucket[d] == Count(s[..p], shift, d)
  }

  method CountOne(bucket: array<nat>, a: Word, log_exp: nat, ghost s: seq<Word>, ghost p: nat)
    requires p < |s| && a == s[p] && Counted(bucket[..], s, log_exp, p)
    modifies bucket
    ensures Counted(bucket[..], s, log_exp, p + 1)
  {
    hide Digit, Count;
    forall d | 0 <= d < BASE { CountNext(s, log_exp, p, d); }
    var d := Digit(a, log_exp);
    bucket[d] := bucket[d] + 1;
  }

  /** The counting loops: the body unrolled by four, then the rest. */
  method CountDigits(bucket: array<nat>, arr: array<Word>, log_exp: nat)
    requires bucket.Length == BASE
    modifies bucket
    ensures Counted(bucket[..], arr[..], log_exp, arr.Length)
  {
    for b := 0 to BASE
      invariant forall d | 0 <= d < b :: bucket[d] == 0
    {
      bucket[b] := 0;
    }
    ghost var s := arr[..];
    assert s[..0] == [];
    var p, n := 0, arr.Length;
    while p < n - 3
      invariant p <= n && Counted(bucket[..], s, log_exp, p)
    {
      var a0, a1, a2, a3 := arr[p], arr[p + 1], arr[p + 2], arr[p + 3];
      CountOne(bucket, a0, log_exp, s, p);
      CountOne(bucket, a1, log_exp, s, p + 1);
      CountOne(bucket, a2, log_exp, s, p + 2);
      CountOne(bucket, a3, log_exp, s, p + 3);
      p := p + 4;
    }
    while p < n
      invariant p <= n && Counted(bucket[..], s, log_exp, p)
    {
      CountOne(bucket, arr[p], log_exp, s, p);
      p := p + 1;
    }
  }

  /** Buckets below b hold where the next digit starts; the others still hold counts. */
  ghost predicate Summed(bucket: seq<nat>, s: seq<Word>, shift: nat, b: nat, prev: nat) {
    && |bucket| == BASE && b <= BASE && prev == Start(s, shift, b)
    && (forall d | 0 <= d < b :: bucket[d] == Start(s, shift, d + 1))
    && (forall d | b <= d < BASE :: bucket[d] == Count(s, shift, d))
  }

  /** bucket[d] is one past the last place of digit d. */
  ghost predicate Ends(bucket: seq<nat>, s: seq<Word>, shift: nat) {
    |bucket| == BASE && forall d | 0 <= d < BASE :: bucket[d] == Start(s, shift, d + 1)
  }

  /** fetch_add(&bucket[b], prev), added to prev. */
  method SumOne(bucket: array<nat>, b: nat, prev: nat, ghost s: seq<Word>, ghost shift: nat) returns (prev': nat)
    requires b < BASE && Summed(bucket[..], s, shift, b, prev)
    modifies bucket
    ensures Summed(bucket[..], s, shift, b + 1, prev')
  {
    hide Start, Count;
    StartNext(s, shift, b);
    var was := bucket[b];
    bucket[b] := was + prev;
    prev' := prev + was;
  }

  /** Inclusive prefix sums, two buckets a round. */
  method PrefixSums(bucket: array<nat>, ghost s: seq<Word>, ghost shift: nat)
    requires bucket.Length == BASE && Counted(bucket[..], s, shift, |s|)
    modifies bucket
    ensures Ends(bucket[..], s, shift)
  {
    hide Counted, Ends, Summed, Count, Start, Dealt, WithDigit, Digit;
    SumsStart(bucket[..], s, shift);
    assert bucket[..][0] == bucket[0];
    var prev := bucket[0];
    prev := SumOne(bucket, 1, prev, s, shift);
    var b := 2;
    while b < BASE
      invariant 2 <= b <= BASE && b % 2 == 0 && Summed(bucket[..], s, shift, b, prev)
    {
      prev := SumOne(bucket, b, prev, s, shift);
      prev := SumOne(bucket, b + 1, prev, s, shift);
      b := b + 2;
    }
    SumsEnd(bucket[..], s, shift, prev);
  }

  lemma SumsStart(bucket: seq<nat>, s: seq<Word>, shift: nat)
    requires Counted(bucket, s, shift, |s|)
    ensures |bucket| == BASE && Summed(bucket, s, shift, 1, bucket[0])
  {
    assert s[..|s|] == s;
    StartNext(s, shift, 0);
  }

  lemma SumsEnd(bucket: seq<nat>, s: seq<Word>, shift: nat, prev: nat)
    requires Summed(bucket, s, shift, BASE, prev)
    ensures Ends(bucket, s, shift)
  {
  }

  // ---- scattering

  /** One past the place of the last element with digit d among the first p. */
  function PlaceAfter(s: seq<Word>, shift: nat, p: nat, d: nat): nat
    requires p <= |s|
  {
    Start(s, shift, d) + Count(s[..p], shift, d)
  }

  ghost predicate BucketsAt(bucket: seq<nat>, s: seq<Word>, shift: nat, p: nat) {
    p <= |s| && |bucket| == BASE && forall d | 0 <= d < BASE :: bucket[d] == PlaceAfter(s, shift, p, d)
  }

  /** With positions p and up scattered, every place they are due is right. */
  ghost predicate Placed(scratch: seq<Word>, s: seq<Word>, shift: nat, p: nat) {
    && p <= |s| == |scratch| == |Pass(s, shift)|
    && forall d, y | 0 <= d < BASE && PlaceAfter(s, shift, p, d) <= y < Start(s, shift, d + 1) && y < |s| ::
         scratch[y] == Pass(s, shift)[y]
  }

  lemma PlaceNext(s: seq<Word>, shift: nat, p: nat)
    requires p < |s|
    ensures forall d ::
              PlaceAfter(s, shift, p + 1, d) == PlaceAfter(s, shift, p, d) + if Digit(s[p], shift) == d then 1 else 0
    ensures var d := Digit(s[p], shift);
            var y := PlaceAfter(s, shift, p, d);
            |Pass(s, shift)| == |s| && y < Start(s, shift, d + 1) <= |s| && Pass(s, shift)[y] == s[p]
  {
    forall d { CountNext(s, shift, p, d); }
    Lands(s, shift, p);
    PassPermutes(s, shift);
  }

  /** fetch_add(pb, -1) on the bucket of a. */
  method TakePlace(bucket: array<nat>, a: Word, log_exp: nat, ghost s: seq<Word>, ghost p: nat) returns (y: nat)
    requires p < |s| && a == s[p] && BucketsAt(bucket[..], s, log_exp, p + 1)
    modifies bucket
    ensures BucketsAt(bucket[..], s, log_exp, p)
    ensures y == PlaceAfter(s, log_exp, p, Digit(a, log_exp)) + 1 <= |s|
  {
    hide PlaceAfter, Pass, Start, Digit;
    PlaceNext(s, log_exp, p);
    var d := Digit(a, log_exp);
    y := bucket[d];
    bucket[d] := y - 1;
  }

  lemma StorePlaced(scratch: seq<Word>, s: seq<Word>, shift: nat, p: nat)
    requires p < |s| && Placed(scratch, s, shift, p + 1)
    ensures var y := PlaceAfter(s, shift, p, Digit(s[p], shift));
            y < |s| && Placed(scratch[y := s[p]], s, shift, p)
  {
    hide PlaceAfter, Pass, Start, Digit;
    PlaceNext(s, shift, p);
  }

  method Store(scratch: array<Word>, y: nat, a: Word, ghost s: seq<Word>, ghost shift: nat, ghost p: nat)
    requires p < |s| && a == s[p] && Placed(scratch[..], s, shift, p + 1)
    requires y == PlaceAfter(s, shift, p, Digit(a, shift)) + 1 <= |s|
    modifies scratch
    ensures Placed(scratch[..], s, shift, p)
  {
    hide PlaceAfter, Pass, Start, Digit;
    StorePlaced(scratch[..], s, shift, p);
    ghost var t := scratch[..];
    scratch[y - 1] := a;
    assert scratch[..] == t[y - 1 := a];
  }

  lemma NothingPlaced(scratch: seq<Word>, s: seq<Word>, shift: nat)
    requires |scratch| == |s|
    ensures Placed(scratch, s, shift, |s|)
  {
    PassPermutes(s, shift);
    assert s[..|s|] == s;
    forall d: nat ensures PlaceAfter(s, shift, |s|, d) == Start(s, shift, d + 1) { StartNext(s, shift, d); }
    hide PlaceAfter, Pass, Start;
  }

  lemma {:induction false} DigitOfPlace(s: seq<Word>, shift: nat, k: nat, y: nat) returns (d: nat)
    requires y < Start(s, shift, k)
    ensures d < k && Start(s, shift, d) <= y < Start(s, shift, d + 1)
  {
    d := k - 1;
    if y < Start(s, shift, k - 1) { d := DigitOfPlace(s, shift, k - 1, y); }
  }

  lemma AllPlaced(scratch: seq<Word>, s: seq<Word>, shift: nat)
    requires Placed(scratch, s, shift, 0)
    ensures scratch == Pass(s, shift)
  {
    assert s[..0] == [];
    forall y | 0 <= y < |s| ensures scratch[y] == Pass(s, shift)[y] {
      var d := DigitOfPlace(s, shift, BASE, y);
      assert PlaceAfter(s, shift, 0, d) == Start(s, shift, d);
    }
  }

  /** Positions p and up are scattered: the buckets and the places agree. */
  ghost predicate Scattered(bucket: seq<nat>, scratch: seq<Word>, s: seq<Word>, shift: nat, p: int) {
    0 <= p <= |s| && BucketsAt(bucket, s, shift, p) && Placed(scratch, s, shift, p)
  }

  /** One round of the unrolled loop: four reads, four places taken, four stores. */
  method ScatterFour(bucket: array<nat>, arr: array<Word>, scratch: array<Word>, log_exp: nat, p: nat)
    requires arr != scratch && 3 <= p < arr.Length
    requires Scattered(bucket[..], scratch[..], arr[..], log_exp, p + 1)
    modifies bucket, scratch
    ensures Scattered(bucket[..], scratch[..], arr[..], log_exp, p - 3)
  {
    hide PlaceAfter, Pass, Start, Digit, Placed, BucketsAt;
    ghost var s := arr[..];
    var a0, a1, a2, a3 := arr[p], arr[p - 1], arr[p - 2], arr[p - 3];
    var s0 := TakePlace(bucket, a0, log_exp, s, p);
    var s1 := TakePlace(bucket, a1, log_exp, s, p - 1);
    var s2 := TakePlace(bucket, a2, log_exp, s, p - 2);
    var s3 := TakePlace(bucket, a3, log_exp, s, p - 3);
    Store(scratch, s0, a0, s, log_exp, p);
    Store(scratch, s1, a1, s, log_exp, p - 1);
    Store(scratch, s2, a2, s, log_exp, p - 2);
    Store(scratch, s3, a3, s, log_exp, p - 3);
  }

  /** The scatter loops, from the back: the body unrolled by four, then the rest. */
  method Scatter(bucket: array<nat>, arr: array<Word>, scratch: array<Word>, log_exp: nat)
    requires arr != scratch && arr.Length == scratch.Length && Ends(bucket[..], arr[..], log_exp)
    modifies bucket, scratch
    ensures scratch[..] == Pass(arr[..], log_exp)
  {
    hide PlaceAfter, Pass, Start, Digit, Placed, BucketsAt;
    ghost var s := arr[..];
    NothingPlaced(scratch[..], s, log_exp);
    FullBuckets(bucket[..], s, log_exp);
    var p := arr.Length - 1;
    while p >= 3
      invariant -1 <= p < |s| && s == arr[..]
      invariant Scattered(bucket[..], scratch[..], s, log_exp, p + 1)
    {
      ScatterFour(bucket, arr, scratch, log_exp, p);
      p := p - 4;
    }
    while p >= 0
      invariant -1 <= p < |s| && s == arr[..]
      invariant Scattered(bucket[..], scratch[..], s, log_exp, p + 1)
    {
      var a := arr[p];
      var s0 := TakePlace(bucket, a, log_exp, s, p);
      Store(scratch, s0, a, s, log_exp, p);
      p := p - 1;
    }
    AllPlaced(scratch[..], s, log_exp);
  }

  lemma FullBuckets(bucket: seq<nat>, s: seq<Word>, shift: nat)
    requires Ends(bucket, s, shift)
    ensures BucketsAt(bucket, s, shift, |s|)
  {
    assert s[..|s|] == s;
    forall d | 0 <= d < BASE ensures bucket[d] == PlaceAfter(s, shift, |s|, d) { StartNext(s, shift, d); }
  }

  // ---- the whole sort

  /** sort: four passes back and forth between the two arrays.  An even number of
      passes, so the result is in arrIn and the copy that follows them is dead code. */
  method Sort(arrIn: array<Word>, scratchIn: array<Word>)
    requires arrIn != scratchIn && arrIn.Length == scratchIn.Length
    modifies arrIn, scratchIn
    ensures Sorted(arrIn[..]) && multiset(arrIn[..]) == multiset(old(arrIn[..]))
    ensures arrIn[..] == Passes(old(arrIn[..]), 4)
  {
    hide Pass, Start, Sorted, Ends, Counted;
    ghost var s0 := arrIn[..];
    var log_exp := 0;
    var bucket := new nat[BASE];
    var arr, scratch := arrIn, scratchIn;
    while log_exp < 32
      invariant 0 <= log_exp <= 32 && log_exp % LOG_BASE == 0
      invariant if log_exp / LOG_BASE % 2 == 0 then arr == arrIn && scratch == scratchIn
                  else arr == scratchIn && scratch == arrIn
      invariant arr[..] == Passes(s0, log_exp / LOG_BASE)
    {
      CountDigits(bucket, arr, log_exp);
      PrefixSums(bucket, arr[..], log_exp);
      Scatter(bucket, arr, scratch, log_exp);
      arr, scratch := scratch, arr;
      log_exp := log_exp + LOG_BASE;
    }
    if arr != arrIn {
      assert false;
    }
    FourPassesSort(s0);
  }
}
