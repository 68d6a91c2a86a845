/** What a sort promises, on sequences: a rearrangement of one segment, and the cut
    points that say how far the sequence is in order. */
module Rearrange {

  /** t is s with the elements of [lo, hi) in some other order. */
  ghost predicate SegPerm<T>(s: seq<T>, t: seq<T>, lo: int, hi: int) {
    && 0 <= lo <= hi <= |s| == |t|
    && multiset(s) == multiset(t)
    && forall x | 0 <= x < |s| && !(lo <= x < hi) :: s[x] == t[x]
  }

  function Swapped<T>(s: seq<T>, i: nat, j: nat): (t: seq<T>)
    requires i < |s| && j < |s|
    ensures |t| == |s|
  {
    s[i := s[j]][j := s[i]]
  }

  lemma SwapPerm<T>(s: seq<T>, i: nat, j: nat, lo: nat, hi: nat)
    requires lo <= i < hi <= |s| && lo <= j < hi
    ensures SegPerm(s, Swapped(s, i, j), lo, hi)
  {
  }

  lemma PermRefl<T>(s: seq<T>, lo: nat, hi: nat)
    requires lo <= hi <= |s|
    ensures SegPerm(s, s, lo, hi)
  {
  }

  lemma PermTrans<T>(s: seq<T>, t: seq<T>, u: seq<T>, lo: nat, hi: nat)
    requires SegPerm(s, t, lo, hi) && SegPerm(t, u, lo, hi)
    ensures SegPerm(s, u, lo, hi)
  {
  }

  /** Nothing to the left of position x exceeds anything from x on. */
  ghost predicate Cut(s: seq<int>, x: int) {
    forall i, j | 0 <= i < x && x <= j < |s| :: s[i] <= s[j]
  }

  ghost predicate Sorted(s: seq<int>) {
    forall i, j | 0 <= i < j < |s| :: s[i] <= s[j]
  }

  lemma SegmentMultiset(s: seq<int>, t: seq<int>, lo: nat, hi: nat)
    requires SegPerm(s, t, lo, hi)
    ensures multiset(s[lo..hi]) == multiset(t[lo..hi])
  {
    MiddleMultiset(s, lo, hi);
    MiddleMultiset(t, lo, hi);
    assert s[..lo] == t[..lo] && s[hi..] == t[hi..];
  }

  lemma MiddleMultiset(s: seq<int>, lo: nat, hi: nat)
    requires lo <= hi <= |s|
    ensures multiset(s[lo..hi]) == multiset(s) - multiset(s[..lo]) - multiset(s[hi..])
  {
    assert s == s[..lo] + s[lo..hi] + s[hi..];
  }

  /** Where an element of the rearranged segment came from. */
  lemma PermSource(s: seq<int>, t: seq<int>, lo: nat, hi: nat, k: nat) returns (k': nat)
    requires SegPerm(s, t, lo, hi) && k < |t|
    ensures k' < |s| && s[k'] == t[k]
    ensures if lo <= k < hi then lo <= k' < hi else k' == k
  {
    k' := k;
    if lo <= k < hi {
      SegmentMultiset(s, t, lo, hi);
      assert t[k] == t[lo..hi][k - lo];
      assert t[k] in multiset(s[lo..hi]);
      var m :| 0 <= m < hi - lo && s[lo..hi][m] == t[k];
      k' := lo + m;
    }
  }

  /** A cut that is not strictly inside a segment survives its rearrangement. */
  lemma CutKept(s: seq<int>, t: seq<int>, lo: nat, hi: nat, x: int)
    requires SegPerm(s, t, lo, hi) && Cut(s, x) && (x <= lo || hi <= x)
    ensures Cut(t, x)
  {
    forall i, j | 0 <= i < x && x <= j < |t| ensures t[i] <= t[j] {
      var i' := PermSource(s, t, lo, hi, i);
      var j' := PermSource(s, t, lo, hi, j);
      assert s[i'] <= s[j'];
    }
  }
}

/** qsort_main.c: quicksort with an explicit stack of pending subarrays, scans
    without bound checks, and insertion sort on short subarrays.  Pointers into the
    array are indices. */
module Quicksort {
  import opened Powers
  import opened Rearrange

  const INSERTION_THRESHOLD := 10

  /** The benchmark's stack size, in pointers. */
  const NSTACK := 50

  method Swap(arr: array<int>, i: nat, j: nat)
    requires i < arr.Length && j < arr.Length
    modifies arr
    ensures arr[..] == Swapped(old(arr[..]), i, j)
  {
    arr[i], arr[j] := arr[j], arr[i];
  }

  method SwapIfGreater(arr: array<int>, i: nat, j: nat)
    requires i < arr.Length && j < arr.Length
    modifies arr
    ensures arr[..] == SwappedIfGreater(old(arr[..]), i, j)
  {
    if arr[i] > arr[j] { Swap(arr, i, j); }
  }

  ghost predicate SortedIn(s: seq<int>, lo: int, hi: int) {
    forall x, y | 0 <= lo <= x < y < hi <= |s| :: s[x] <= s[y]
  }

  /** s with a hole at j: the rest of [lo, i] in order, and all beyond the hole above value. */
  ghost predicate Hole(s: seq<int>, lo: int, j: int, i: int, value: int) {
    && 0 <= lo <= j <= i < |s|
    && (forall x, y | lo <= x < y <= i && x != j && y != j :: s[x] <= s[y])
    && (forall x | j < x <= i :: value < s[x])
  }

  lemma HoleMoves(s: seq<int>, lo: nat, j: nat, i: nat, value: int)
    requires Hole(s, lo, j, i, value) && lo < j && value < s[j - 1]
    ensures j <= i < |s| && Hole(s[j := s[j - 1]], lo, j - 1, i, value)
  {
    var t := s[j := s[j - 1]];
    assert forall x {:trigger t[x]} | 0 <= x < |s| :: t[x] == if x == j then s[j - 1] else s[x];
  }

  lemma HoleDown(s0: seq<int>, s: seq<int>, lo: nat, j: nat, i: nat, hi: nat, value: int)
    requires Hole(s, lo, j, i, value) && lo < j && value < s[j - 1] && i < hi <= |s|
    requires SegPerm(s0, s[j := value], lo, hi)
    ensures var t := s[j := s[j - 1]]; Hole(t, lo, j - 1, i, value) && SegPerm(s0, t[j - 1 := value], lo, hi)
  {
    hide SegPerm, Hole;
    HoleMoves(s, lo, j, i, value);
    var t := s[j := s[j - 1]];
    assert Swapped(s[j := value], j, j - 1) == t[j - 1 := value];
    SwapPerm(s[j := value], j, j - 1, lo, hi);
    PermTrans(s0, s[j := value], t[j - 1 := value], lo, hi);
  }

  /** One round of insertion_sort: move arr[i] down to its place among the sorted
      elements from lo. */
  method Insert(arr: array<int>, lo: nat, i: nat, hi: nat)
    requires lo < i < hi <= arr.Length && SortedIn(arr[..], lo, i)
    modifies arr
    ensures SegPerm(old(arr[..]), arr[..], lo, hi)
    ensures SortedIn(arr[..], lo, i + 1)
  {
    hide SegPerm;
    var value := arr[i];
    var j := i;
    ghost var s0 := arr[..];
    assert s0[j := value] == s0;
    PermRefl(s0, lo, hi);
    while value < arr[j - 1]
      invariant lo < j <= i
      invariant Hole(arr[..], lo, j, i, value)
      invariant SegPerm(s0, arr[..][j := value], lo, hi)
      decreases j
    {
      HoleDown(s0, arr[..], lo, j, i, hi, value);
      ghost var s := arr[..];
      arr[j] := arr[j - 1];
      assert arr[..] == s[j := s[j - 1]];
      j := j - 1;
      if j == lo { break; }
    }
    ghost var s := arr[..];
    arr[j] := value;
    assert arr[..] == s[j := value];
  }

  /** insertion_sort on the n elements from lo. */
  method InsertionSort(arr: array<int>, lo: nat, n: nat)
    requires lo + n <= arr.Length
    modifies arr
    ensures SegPerm(old(arr[..]), arr[..], lo, lo + n)
    ensures SortedIn(arr[..], lo, lo + n)
  {
    ghost var s0 := arr[..];
    var i := lo + 1;
    while i < lo + n
      invariant lo + 1 <= i && (n > 0 ==> i <= lo + n)
      invariant SegPerm(s0, arr[..], lo, lo + n)
      invariant SortedIn(arr[..], lo, if n > 0 then i else lo)
    {
      ghost var t := arr[..];
      Insert(arr, lo, i, lo + n);
      PermTrans(s0, t, arr[..], lo, lo + n);
      i := i + 1;
    }
  }

  function SwappedIfGreater(s: seq<int>, i: nat, j: nat): (t: seq<int>)
    requires i < |s| && j < |s|
    ensures |t| == |s|
  {
    if s[i] > s[j] then Swapped(s, i, j) else s
  }

  lemma SwapIfGreaterPerm(s: seq<int>, i: nat, j: nat, lo: nat, hi: nat)
    requires lo <= i < hi <= |s| && lo <= j < hi
    ensures SegPerm(s, SwappedIfGreater(s, i, j), lo, hi)
  {
    SwapPerm(s, i, j, lo, hi);
  }

  function MedianSwaps(s: seq<int>, l: nat, ir: nat): (t: seq<int>)
    requires 1 <= l < ir - 1 < |s|
    ensures |t| == |s|
  {
    var s1 := Swapped(s, (l + ir) / 2 - 1, l);
    var s2 := SwappedIfGreater(s1, l - 1, ir - 1);
    var s3 := SwappedIfGreater(s2, l, ir - 1);
    SwappedIfGreater(s3, l - 1, l)
  }

  lemma MedianSwapsPerm(s: seq<int>, l: nat, ir: nat)
    requires 1 <= l < ir - 1 < |s|
    ensures SegPerm(s, MedianSwaps(s, l, ir), l - 1, ir)
  {
    hide SegPerm, Swapped, SwappedIfGreater;
    var s1 := Swapped(s, (l + ir) / 2 - 1, l);
    var s2 := SwappedIfGreater(s1, l - 1, ir - 1);
    var s3 := SwappedIfGreater(s2, l, ir - 1);
    SwapPerm(s, (l + ir) / 2 - 1, l, l - 1, ir);
    SwapIfGreaterPerm(s1, l - 1, ir - 1, l - 1, ir);
    SwapIfGreaterPerm(s2, l, ir - 1, l - 1, ir);
    SwapIfGreaterPerm(s3, l - 1, l, l - 1, ir);
    PermTrans(s, s1, s2, l - 1, ir);
    PermTrans(s, s2, s3, l - 1, ir);
    PermTrans(s, s3, MedianSwaps(s, l, ir), l - 1, ir);
  }

  /** The swaps that leave the median of three in arr[l], with arr[l-1] no larger and
      arr[ir-1] no smaller: these two are the sentinels of the scans. */
  method MedianOfThree(arr: array<int>, l: nat, ir: nat)
    requires 1 <= l < ir - 1 < arr.Length
    modifies arr
    ensures arr[..] == MedianSwaps(old(arr[..]), l, ir)
    ensures arr[l - 1] <= arr[l] <= arr[ir - 1]
  {
    Swap(arr, (l + ir) / 2 - 1, l);
    SwapIfGreater(arr, l - 1, ir - 1);
    SwapIfGreater(arr, l, ir - 1);
    SwapIfGreater(arr, l - 1, l);
  }

  /** The upward scan stops at the first element not below a, before the sentinel. */
  method ScanUp(arr: array<int>, i0: nat, ir: nat, a: int) returns (i: nat)
    requires i0 < ir <= arr.Length && exists x | i0 <= x < ir :: arr[x] >= a
    ensures i0 < i <= ir && arr[i - 1] >= a
    ensures forall x | i0 <= x < i - 1 :: arr[x] < a
  {
    i := i0;
    ghost var stop :| i0 <= stop < ir && arr[stop] >= a;
    var below := true;
    while below
      invariant i0 <= i <= stop + 1
      invariant forall x | i0 <= x < i - 1 :: arr[x] < a
      invariant i > i0 ==> below == (arr[i - 1] < a)
      invariant i == i0 ==> below
      decreases stop + 1 - i, below
    {
      below := arr[i] < a;
      i := i + 1;
    }
  }

  /** The downward scan stops at the last element not above a, before the sentinel. */
  method ScanDown(arr: array<int>, l: nat, j0: nat, a: int) returns (j: nat)
    requires 1 <= l < j0 <= arr.Length + 1 && exists x | l - 1 <= x < j0 - 1 :: arr[x] <= a
    ensures l <= j < j0 && arr[j - 1] <= a
    ensures forall x | j - 1 < x < j0 - 1 :: arr[x] > a
  {
    j := j0;
    ghost var stop :| l - 1 <= stop < j0 - 1 && arr[stop] <= a;
    var above := true;
    while above
      invariant stop + 1 <= j <= j0
      invariant forall x | j - 1 < x < j0 - 1 :: arr[x] > a
      invariant j < j0 ==> above == (arr[j - 1] > a)
      invariant j == j0 ==> above
      decreases j, above
    {
      above := arr[j - 2] > a;
      j := j - 1;
    }
  }

  /** Between two exchanges: [l-1, i) at or below the pivot a, [j-1, ir) at or above it,
      so each scan has a sentinel ahead. */
  ghost predicate Scanned(s: seq<int>, l: int, i: int, j: int, ir: int, a: int) {
    && 1 <= l < i <= j <= ir <= |s| && i < ir && l + 2 <= j
    && (forall x | l - 1 <= x < i :: s[x] <= a)
    && (forall x | j - 1 <= x < ir :: s[x] >= a)
    && s[l] == a
  }

  /** What one upward and one downward scan from i and j found. */
  ghost predicate Stopped(s: seq<int>, l: int, i: int, j: int, i': int, j': int, ir: int, a: int) {
    && Scanned(s, l, i, j, ir, a)
    && i < i' <= ir && (forall x | i <= x < i' - 1 :: s[x] < a) && s[i' - 1] >= a
    && l <= j' < j && (forall x | j' - 1 < x < j - 1 :: s[x] > a) && s[j' - 1] <= a
  }

  /** The pivot is at j-1; [l-1, i-1) is at or below it and [j-1, ir) at or above it. */
  ghost predicate Partitioned(s: seq<int>, l: int, i: int, j: int, ir: int) {
    && 1 <= l < j < i <= ir <= |s|
    && (forall x | l - 1 <= x < i - 1 :: s[x] <= s[j - 1])
    && (forall x | j - 1 <= x < ir :: s[x] >= s[j - 1])
  }

  lemma ScanStart(s: seq<int>, l: int, ir: int)
    requires 1 <= l && l + 3 <= ir <= |s| && s[l - 1] <= s[l] <= s[ir - 1]
    ensures Scanned(s, l, l + 1, ir, ir, s[l])
  {
  }

  lemma Exchange(s: seq<int>, l: int, i: int, j: int, i': int, j': int, ir: int, a: int)
    requires Stopped(s, l, i, j, i', j', ir, a) && i' <= j'
    ensures Scanned(Swapped(s, i' - 1, j' - 1), l, i', j', ir, a)
  {
  }

  lemma Crossed(s: seq<int>, l: int, i: int, j: int, i': int, j': int, ir: int, a: int)
    requires Stopped(s, l, i, j, i', j', ir, a) && j' < i'
    ensures l < j' <= |s| && s[l] == a && Partitioned(Swapped(s, l, j' - 1), l, i', j', ir)
  {
    assert s[l] == a;
  }

  method Scans(arr: array<int>, l: nat, i: nat, j: nat, ir: nat, a: int) returns (i': nat, j': nat)
    requires Scanned(arr[..], l, i, j, ir, a)
    ensures Stopped(arr[..], l, i, j, i', j', ir, a)
    ensures i < i' <= ir && l <= j' < j
  {
    assert arr[ir - 1] >= a && arr[l] <= a;
    i' := ScanUp(arr, i, ir, a);
    j' := ScanDown(arr, l, j, a);
  }

  /** The scan-and-exchange loop, up to the crossing of i and j. */
  method Exchanges(arr: array<int>, l: nat, ir: nat) returns (i: nat, j: nat)
    requires 0 < l < ir <= arr.Length && Scanned(arr[..], l, l + 1, ir, ir, arr[l])
    modifies arr
    ensures SegPerm(old(arr[..]), arr[..], l - 1, ir)
    ensures l < j < i <= ir && Partitioned(Swapped(arr[..], l, j - 1), l, i, j, ir)
    ensures arr[l] == old(arr[l])
  {
    hide *;
    ghost var s0 := arr[..];
    i := l + 1;
    j := ir;
    var a := arr[l];
    PermRefl(s0, l - 1, ir);
    while true
      invariant SegPerm(s0, arr[..], l - 1, ir)
      invariant Scanned(arr[..], l, i, j, ir, a) && l < i <= j <= ir
      decreases j - i
    {
      ghost var s, i', j' := arr[..], i, j;
      i, j := Scans(arr, l, i, j, ir, a);
      if j < i {
        Crossed(s, l, i', j', i, j, ir, a);
        break;
      }
      Exchange(s, l, i', j', i, j, ir, a);
      Swap(arr, i - 1, j - 1);
      SwapPerm(s, i - 1, j - 1, l - 1, ir);
      PermTrans(s0, s, arr[..], l - 1, ir);
    }
  }

  /** Partition [l-1, ir) around the median of three.  Returns the final i and j. */
  method Partition(arr: array<int>, l: nat, ir: nat) returns (i: nat, j: nat)
    requires 1 <= l && l + 3 <= ir <= arr.Length
    modifies arr
    ensures SegPerm(old(arr[..]), arr[..], l - 1, ir)
    ensures Partitioned(arr[..], l, i, j, ir) && l < j < i <= ir
  {
    hide SegPerm, Partitioned, MedianSwaps, Scanned;
    ghost var s0 := arr[..];
    MedianOfThree(arr, l, ir);
    MedianSwapsPerm(s0, l, ir);
    var a := arr[l];
    ghost var s1 := arr[..];
    ScanStart(s1, l, ir);
    i, j := Exchanges(arr, l, ir);
    ghost var s2 := arr[..];
    arr[l] := arr[j - 1];
    arr[j - 1] := a;
    assert arr[..] == Swapped(s2, l, j - 1);
    SwapPerm(s2, l, j - 1, l - 1, ir);
    PermTrans(s1, s2, arr[..], l - 1, ir);
    PermTrans(s0, s1, arr[..], l - 1, ir);
  }

  // ---- the stack of pending subarrays

  /** A subarray [lo, hi) still to be sorted. */
  datatype Segment = Segment(lo: nat, hi: nat) {
    function Size(): nat { if lo <= hi then hi - lo else 0 }
  }

  predicate Apart(p: Segment, q: Segment) { p.hi <= q.lo || q.hi <= p.lo }

  predicate Inside(p: Segment, x: int) { p.lo < x < p.hi }

  /** Every position not strictly inside a segment to do is a cut, and the segments
      to do do not overlap. */
  ghost predicate Pending(s: seq<int>, todo: seq<Segment>) {
    && (forall k | 0 <= k < |todo| :: todo[k].lo <= todo[k].hi <= |s|)
    && (forall k, m | 0 <= k < m < |todo| :: Apart(todo[k], todo[m]))
    && (forall x | 0 <= x <= |s| :: (exists k | 0 <= k < |todo| :: Inside(todo[k], x)) || Cut(s, x))
  }

  /** The segment at depth k is at most the whole array halved k times. */
  ghost predicate Halved(n: nat, todo: seq<Segment>) {
    forall k | 0 <= k < |todo| :: todo[k].Size() * Pow2(k) <= n
  }

  function Weight(todo: seq<Segment>): nat {
    if todo == [] then 0 else Weight(todo[..|todo| - 1]) + 2 * todo[|todo| - 1].Size() + 1
  }

  /** The ends of a segment to do are cuts, before and after it is rearranged. */
  lemma EndsAreCuts(s: seq<int>, t: seq<int>, todo: seq<Segment>, seg: Segment)
    requires Pending(s, todo + [seg]) && SegPerm(s, t, seg.lo, seg.hi)
    ensures Cut(t, seg.lo) && Cut(t, seg.hi)
  {
    var all := todo + [seg];
    assert all[|todo|] == seg;
    forall k | 0 <= k < |all| ensures !Inside(all[k], seg.lo) && !Inside(all[k], seg.hi) {
      assert k == |todo| || Apart(all[k], all[|todo|]);
    }
    CutKept(s, t, seg.lo, seg.hi, seg.lo);
    CutKept(s, t, seg.lo, seg.hi, seg.hi);
  }

  /** A position that is a cut within the segment is a cut of the whole sequence. */
  lemma CutInside(t: seq<int>, seg: Segment, x: int)
    requires Cut(t, seg.lo) && Cut(t, seg.hi) && Inside(seg, x) && seg.hi <= |t|
    requires forall i, j | seg.lo <= i < x <= j < seg.hi :: t[i] <= t[j]
    ensures Cut(t, x)
  {
  }

  /** Cuts outside a rearranged segment, and not inside any other segment to do. */
  lemma OtherCuts(s: seq<int>, t: seq<int>, todo: seq<Segment>, seg: Segment, x: int)
    requires Pending(s, todo + [seg]) && SegPerm(s, t, seg.lo, seg.hi)
    requires 0 <= x <= |s| && !Inside(seg, x) && forall k | 0 <= k < |todo| :: !Inside(todo[k], x)
    ensures Cut(t, x)
  {
    var all := todo + [seg];
    assert forall k | 0 <= k < |all| :: all[k] == if k == |todo| then seg else todo[k];
    if seg.lo < seg.hi {
      CutKept(s, t, seg.lo, seg.hi, x);
    } else {
      assert s == t;
    }
  }

  lemma SortedSegmentDone(s: seq<int>, t: seq<int>, todo: seq<Segment>, seg: Segment)
    requires Pending(s, todo + [seg]) && SegPerm(s, t, seg.lo, seg.hi) && SortedIn(t, seg.lo, seg.hi)
    ensures Pending(t, todo)
  {
    var all := todo + [seg];
    assert forall k | 0 <= k < |todo| :: all[k] == todo[k];
    EndsAreCuts(s, t, todo, seg);
    forall x | 0 <= x <= |t| && forall k | 0 <= k < |todo| :: !Inside(todo[k], x) ensures Cut(t, x) {
      if Inside(seg, x) { CutInside(t, seg, x); } else { OtherCuts(s, t, todo, seg, x); }
    }
  }

  lemma PartitionedSegment(s: seq<int>, t: seq<int>, todo: seq<Segment>, seg: Segment, i: nat, j: nat, p: Segment,
                           q: Segment)
    requires Pending(s, todo + [seg]) && SegPerm(s, t, seg.lo, seg.hi)
    requires Partitioned(t, seg.lo + 1, i, j, seg.hi)
    requires var left, right := Segment(seg.lo, j - 1), Segment(i - 1, seg.hi);
             (p == left && q == right) || (p == right && q == left)
    ensures Pending(t, todo + [p, q])
  {
    var all, all' := todo + [seg], todo + [p, q];
    assert all[|todo|] == seg;
    assert all'[|todo|] == p && all'[|todo| + 1] == q;
    assert forall k | 0 <= k < |todo| :: all[k] == todo[k] == all'[k] && Apart(all[k], all[|todo|]);
    EndsAreCuts(s, t, todo, seg);
    forall x | 0 <= x <= |t| && forall k | 0 <= k < |all'| :: !Inside(all'[k], x) ensures Cut(t, x) {
      assert !Inside(p, x) && !Inside(q, x);
      assert forall k | 0 <= k < |todo| :: !Inside(todo[k], x);
      if Inside(seg, x) { CutInside(t, seg, x); } else { OtherCuts(s, t, todo, seg, x); }
    }
  }

  lemma NothingPending(s: seq<int>)
    requires Pending(s, [])
    ensures Sorted(s)
  {
    forall i, j | 0 <= i < j < |s| ensures s[i] <= s[j] {
      assert Cut(s, j);
    }
  }

  // ---- the depth of the stack

  lemma {:induction false} WeightSplit(todo: seq<Segment>, seg: Segment, p: Segment, q: Segment)
    requires p.Size() + q.Size() < seg.Size()
    ensures Weight(todo + [p, q]) < Weight(todo + [seg])
  {
    assert (todo + [p, q])[..|todo| + 1] == todo + [p];
    assert (todo + [p])[..|todo|] == todo == (todo + [seg])[..|todo|];
  }

  lemma {:induction false} WeightPop(todo: seq<Segment>, seg: Segment)
    ensures Weight(todo) < Weight(todo + [seg])
  {
    assert (todo + [seg])[..|todo|] == todo;
  }

  /** Pushing the larger part and going on with the smaller keeps every segment halved. */
  lemma HalvedSplit(n: nat, todo: seq<Segment>, seg: Segment, p: Segment, q: Segment)
    requires Halved(n, todo + [seg])
    requires p.Size() + q.Size() < seg.Size() && 0 <= q.Size() <= p.Size()
    ensures Halved(n, todo + [p, q])
  {
    var k := |todo|;
    assert (todo + [seg])[k] == seg;
    ProductMonotone(p.Size(), seg.Size(), Pow2(k));
    ProductMonotone(2 * q.Size(), seg.Size(), Pow2(k));
    assert q.Size() * Pow2(k + 1) == 2 * q.Size() * Pow2(k);
    forall m | 0 <= m < k + 2 ensures (todo + [p, q])[m].Size() * Pow2(m) <= n {
      assert m < k ==> (todo + [seg])[m] == (todo + [p, q])[m];
    }
  }

  /** With n below 11 * 2^depth, a segment long enough to be partitioned has fewer
      than `depth` segments pending below it. */
  lemma DepthBound(n: nat, depth: nat, todo: seq<Segment>, seg: Segment)
    requires Halved(n, todo + [seg]) && n < (INSERTION_THRESHOLD + 1) * Pow2(depth)
    requires seg.Size() > INSERTION_THRESHOLD
    ensures |todo| < depth
  {
    assert (todo + [seg])[|todo|] == seg;
    if |todo| >= depth {
      Pow2Monotone(depth, |todo|);
      ProductMonotone(INSERTION_THRESHOLD + 1, seg.Size(), Pow2(|todo|));
    }
  }

  /** The benchmark's stack of 50 pointers is enough below 11 * 2^24 elements. */
  lemma BenchmarkDepth(n: nat)
    ensures n < 11 * 0x100_0000 <==> n < (INSERTION_THRESHOLD + 1) * Pow2((NSTACK - 1) / 2)
  {
    assert Pow2(12) == 4096;
    assert Pow2(24) == 0x100_0000;
  }

  /** What the stack array holds: for each pending segment, the pointers l and ir. */
  ghost predicate OnStack(stack: seq<nat>, todo: seq<Segment>) {
    && 2 * |todo| <= |stack|
    && forall k | 0 <= k < |todo| ::
         2 * k + 2 < |stack| && stack[2 * k + 1] == todo[k].lo + 1 && stack[2 * k + 2] == todo[k].hi
  }

  lemma Pop(n: nat, todo: seq<Segment>, seg: Segment)
    requires Halved(n, todo + [seg]) && todo != []
    ensures Halved(n, todo)
  {
    assert forall k | 0 <= k < |todo| :: (todo + [seg])[k] == todo[k];
  }

  lemma PushFrame(stack: seq<nat>, stack': seq<nat>, todo: seq<Segment>, p: Segment)
    requires OnStack(stack, todo) && 2 * |todo| + 2 < |stack|
    requires stack' == stack[2 * |todo| + 2 := p.hi][2 * |todo| + 1 := p.lo + 1]
    ensures OnStack(stack', todo + [p])
  {
  }

  lemma PopFrame(stack: seq<nat>, todo: seq<Segment>)
    requires OnStack(stack, todo) && todo != []
    ensures var top := |todo| - 1;
            && OnStack(stack, todo[..top])
            && 2 * |todo| < |stack| && stack[2 * |todo|] == todo[top].hi && stack[2 * |todo| - 1] == todo[top].lo + 1
  {
  }

  /** The state between two rounds of sort: [l-1, ir) is current, `todo` is pending. */
  ghost predicate Going(s: seq<int>, stack: seq<nat>, stackp: int, todo: seq<Segment>, l: int, ir: int) {
    && 0 < l && 0 <= ir && l - 1 <= ir <= |s|
    && stackp == 2 * |todo| && OnStack(stack, todo)
    && Pending(s, todo + [Segment(l - 1, ir)])
    && Halved(|s|, todo + [Segment(l - 1, ir)])
  }

  ghost function Remaining(todo: seq<Segment>, l: int, ir: int): nat {
    if 0 < l && 0 <= ir then Weight(todo + [Segment(l - 1, ir)]) else 0
  }

  lemma Start(s: seq<int>, stack: seq<nat>)
    ensures Going(s, stack, 0, [], 1, |s|)
  {
    var seg := Segment(0, |s|);
    assert [] + [seg] == [seg];
    forall x | 0 <= x <= |s| && !Inside([seg][0], x) ensures Cut(s, x) {}
    assert Pow2(0) == 1;
  }

  /** After the insertion sort either nothing is pending or the top frame is next. */
  lemma PopStep(s: seq<int>, t: seq<int>, stack: seq<nat>, stackp: int, todo: seq<Segment>, l: nat, ir: nat)
    requires Going(s, stack, stackp, todo, l, ir)
    requires |s| == |t| && SegPerm(s, t, l - 1, ir) && SortedIn(t, l - 1, ir)
    ensures stackp == 0 ==> Sorted(t)
    ensures stackp > 0 ==>
              && 2 <= stackp < |stack|
              && var todo' := todo[..|todo| - 1];
                 Going(t, stack, stackp - 2, todo', stack[stackp - 1], stack[stackp]) &&
                 Remaining(todo', stack[stackp - 1], stack[stackp]) < Remaining(todo, l, ir)
  {
    hide SegPerm, SortedIn, Sorted, Halved, Pending, OnStack, Weight;
    var seg := Segment(l - 1, ir);
    SortedSegmentDone(s, t, todo, seg);
    if todo == [] {
      NothingPending(t);
    } else {
      var top := |todo| - 1;
      PopFrame(stack, todo);
      Pop(|s|, todo, seg);
      WeightPop(todo, seg);
      PendingBounds(t, todo);
      assert todo[top] == Segment(stack[stackp - 1] - 1, stack[stackp]);
      assert todo == todo[..top] + [todo[top]];
    }
  }

  lemma PendingBounds(s: seq<int>, todo: seq<Segment>)
    requires Pending(s, todo)
    ensures forall k | 0 <= k < |todo| :: todo[k].lo <= todo[k].hi <= |s|
  {
  }

  /** After a partition the part p, at least as large, is pushed and q is current. */
  lemma PushStep(s: seq<int>, t: seq<int>, stack: seq<nat>, stack': seq<nat>, todo: seq<Segment>, l: nat, ir: nat,
                 i: nat, j: nat, p: Segment, q: Segment)
    requires Going(s, stack, 2 * |todo|, todo, l, ir) && |s| == |t| && SegPerm(s, t, l - 1, ir)
    requires Partitioned(t, l, i, j, ir) && 1 <= l < j < i <= ir <= |t|
    requires var left, right := Segment(l - 1, j - 1), Segment(i - 1, ir);
             (p == left && q == right) || (p == right && q == left)
    requires q.Size() <= p.Size()
    requires 2 * |todo| + 2 < |stack| && stack' == stack[2 * |todo| + 2 := p.hi][2 * |todo| + 1 := p.lo + 1]
    ensures Going(t, stack', 2 * |todo| + 2, todo + [p], q.lo + 1, q.hi)
    ensures Remaining(todo + [p], q.lo + 1, q.hi) < Remaining(todo, l, ir)
  {
    hide SegPerm, Halved, Pending, OnStack, Weight, Partitioned;
    var seg := Segment(l - 1, ir);
    PartitionedSegment(s, t, todo, seg, i, j, p, q);
    HalvedSplit(|s|, todo, seg, p, q);
    WeightSplit(todo, seg, p, q);
    PushFrame(stack, stack', todo, p);
    assert q == Segment(q.lo + 1 - 1, q.hi);
    assert todo + [p, q] == todo + [p] + [q];
  }

  /** sort, with room for `nstack` pointers on the stack. */
  method Sort(arr: array<int>, nstack: nat)
    requires nstack > 0 && arr.Length < (INSERTION_THRESHOLD + 1) * Pow2((nstack - 1) / 2)
    modifies arr
    ensures Sorted(arr[..])
    ensures multiset(arr[..]) == multiset(old(arr[..]))
  {
    hide Partitioned, Remaining, Sorted, SortedIn, Pending, Halved, OnStack;
    var ir: nat := arr.Length;
    var l: nat := 1;
    var stack := new nat[nstack];
    var stackp := 0;
    ghost var todo: seq<Segment> := [];
    Start(arr[..], stack[..]);
    while true
      invariant Going(arr[..], stack[..], stackp, todo, l, ir)
      invariant multiset(arr[..]) == multiset(old(arr[..]))
      decreases Remaining(todo, l, ir)
    {
      ghost var s, frames := arr[..], stack[..];
      if ir - l < INSERTION_THRESHOLD {
        InsertionSort(arr, l - 1, ir - l + 1);
        PopStep(s, arr[..], frames, stackp, todo, l, ir);
        if stackp == 0 { break; }
        ir := stack[stackp];
        stackp := stackp - 1;
        l := stack[stackp];
        stackp := stackp - 1;
        todo := todo[..|todo| - 1];
      } else {
        DepthBound(arr.Length, (nstack - 1) / 2, todo, Segment(l - 1, ir));
        var i, j := Partition(arr, l, ir);
        stackp := stackp + 2;
        if ir - i + 1 >= j - l {
          stack[stackp] := ir;
          stack[stackp - 1] := i;
          PushStep(s, arr[..], frames, stack[..], todo, l, ir, i, j, Segment(i - 1, ir), Segment(l - 1, j - 1));
          todo := todo + [Segment(i - 1, ir)];
          ir := j - 1;
        } else {
          stack[stackp] := j - 1;
          stack[stackp - 1] := l;
          PushStep(s, arr[..], frames, stack[..], todo, l, ir, i, j, Segment(l - 1, j - 1), Segment(i - 1, ir));
          todo := todo + [Segment(l - 1, j - 1)];
          l := i;
        }
      }
    }
  }
}
