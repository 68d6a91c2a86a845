/** towers_main.c: the towers of Hanoi on linked lists whose nodes come from a common pool. */
module Towers {
  import opened Powers
  import opened Sequences

  class Node {
    var val: int
    var next: Node?

    constructor (val: int)
      ensures this.val == val && next == null
    {
      this.val, next := val, null;
    }
  }

  /** The nodes from head on are those of s, in order. */
  ghost predicate Linked(head: Node?, s: seq<Node>)
    reads s
  {
    && (if s == [] then head == null else head == s[0])
    && (forall i {:trigger s[i].next} | 0 <= i < |s| :: s[i].next == if i + 1 < |s| then s[i + 1] else null)
    && NoRepeats(s)
  }

  /** `nodes` and `vals` are ghost: the nodes on the list and their values, the head first. */
  class List {
    var size: int
    var head: Node?
    ghost var nodes: seq<Node>
    ghost var vals: seq<int>

    ghost predicate Valid()
      reads this, nodes
    {
      Linked(head, nodes) && |vals| == |nodes| && forall i | 0 <= i < |nodes| :: nodes[i].val == vals[i]
    }

    /** list_init */
    constructor ()
      ensures Valid() && nodes == [] && vals == [] && size == 0
    {
      size, head, nodes, vals := 0, null, [], [];
    }
  }

  ghost predicate Apart(s: seq<Node>, t: seq<Node>) { forall i, j | 0 <= i < |s| && 0 <= j < |t| :: s[i] != t[j] }

  /** list_push: the first free node goes onto the list. */
  method Push(free: List, list: List, val: int)
    requires free != list && free.Valid() && list.Valid() && Apart(free.nodes, list.nodes) && free.nodes != []
    modifies free, list, free.nodes[0]
    ensures free.Valid() && free.nodes == old(free.nodes[1..]) && free.vals == old(free.vals[1..])
    ensures list.Valid() && list.nodes == old([free.nodes[0]] + list.nodes) && list.vals == [val] + old(list.vals) &&
            list.size == old(list.size) + 1
  {
    hide NoRepeats;
    FirstDropped(free.nodes);
    FirstAdded(free.nodes[0], list.nodes);
    var newNode := free.head;
    free.head := free.head.next;
    free.nodes, free.vals := free.nodes[1..], free.vals[1..];
    newNode.next := list.head;
    list.head := newNode;
    list.head.val := val;
    list.nodes, list.vals := [newNode] + list.nodes, [val] + list.vals;
    list.size := list.size + 1;
  }

  /** list_pop: the head node goes back to the front of the free list. */
  method Pop(free: List, list: List) returns (val: int)
    requires free != list && free.Valid() && list.Valid() && Apart(free.nodes, list.nodes) && list.nodes != []
    modifies free, list, list.nodes[0]
    ensures val == old(list.vals[0])
    ensures list.Valid() && list.nodes == old(list.nodes[1..]) && list.vals == old(list.vals[1..]) &&
            list.size == old(list.size) - 1
    ensures free.Valid() && free.nodes == old([list.nodes[0]] + free.nodes) && free.vals == [val] + old(free.vals)
  {
    hide NoRepeats;
    FirstDropped(list.nodes);
    FirstAdded(list.nodes[0], free.nodes);
    val := list.head.val;
    var freedNode := list.head;
    list.head := list.head.next;
    list.nodes, list.vals := list.nodes[1..], list.vals[1..];
    freedNode.next := free.head;
    free.head := freedNode;
    free.nodes, free.vals := [freedNode] + free.nodes, [val] + free.vals;
    list.size := list.size - 1;
  }

  function NodeSet(s: seq<Node>): set<Node> { set n | n in s }

  /** Three pegs and the free list share no node and are the pool together. */
  ghost predicate Partition(a: seq<Node>, b: seq<Node>, c: seq<Node>, f: seq<Node>, pool: set<Node>) {
    && Apart(a, b) && Apart(b, a) && Apart(a, c) && Apart(c, a) && Apart(b, c) && Apart(c, b)
    && Apart(f, a) && Apart(f, b) && Apart(f, c)
    && NodeSet(a) + NodeSet(b) + NodeSet(c) + NodeSet(f) == pool
  }

  lemma Reorder(a: seq<Node>, b: seq<Node>, c: seq<Node>, f: seq<Node>, pool: set<Node>)
    ensures Partition(a, b, c, f, pool) == Partition(b, a, c, f, pool) == Partition(a, c, b, f, pool)
    ensures Partition(a, b, c, f, pool) == Partition(c, b, a, f, pool) == Partition(b, c, a, f, pool) ==
            Partition(c, a, b, f, pool)
  {
    hide Apart, NodeSet;
  }

  lemma FirstNode(s: seq<Node>)
    requires s != []
    ensures NodeSet(s) == {s[0]} + NodeSet(s[1..])
  {
    assert s == [s[0]] + s[1..];
  }

  /** A node that goes from the front of one list to the front of another. */
  lemma PopPartition(a: seq<Node>, b: seq<Node>, c: seq<Node>, f: seq<Node>, pool: set<Node>)
    requires Partition(a, b, c, f, pool) && a != [] && NoRepeats(a)
    ensures Partition(a[1..], b, c, [a[0]] + f, pool)
  {
    hide NodeSet;
    FirstNode(a);
    FirstNode([a[0]] + f);
    assert ([a[0]] + f)[1..] == f;
  }

  lemma PushPartition(a: seq<Node>, b: seq<Node>, c: seq<Node>, f: seq<Node>, pool: set<Node>)
    requires Partition(a, b, c, f, pool) && f != [] && NoRepeats(f)
    ensures Partition([f[0]] + a, b, c, f[1..], pool)
  {
    hide NodeSet;
    FirstNode(f);
    FirstNode([f[0]] + a);
    assert ([f[0]] + a)[1..] == a;
  }

  /** A stack that a peg may hold: no disc on a smaller one. */
  predicate Sorted(vals: seq<int>) { forall i, j | 0 <= i < j < |vals| :: vals[i] < vals[j] }

  /** A disc and the stack it is put on. */
  datatype Drop = Drop(disc: int, onto: seq<int>)

  predicate Legal(d: Drop) { d.onto == [] || d.disc < d.onto[0] }

  predicate AllLegal(log: seq<Drop>) { forall i | 0 <= i < |log| :: Legal(log[i]) }

  /** The discs 1 to n, the smallest first. */
  function Discs(n: nat): (r: seq<int>)
    ensures |r| == n && forall i | 0 <= i < n :: r[i] == i + 1
  {
    seq(n, i => i + 1)
  }

  lemma SortedParts(ds: seq<int>, s: seq<int>)
    requires ds != [] && Sorted(ds + s)
    ensures var n := |ds|;
            ds + s == ds[..n - 1] + ([ds[n - 1]] + s) && Sorted(ds[..n - 1] + s) && Sorted([ds[n - 1]] + s)
    ensures s != [] ==> ds[|ds| - 1] < s[0]
  {
    var t, u := ds + s, ds[..|ds| - 1] + s;
    assert ds + s == ds[..|ds| - 1] + ([ds[|ds| - 1]] + s);
    forall i, j | 0 <= i < j < |u| ensures u[i] < u[j] {
      var i', j' := if i < |ds| - 1 then i else i + 1, if j < |ds| - 1 then j else j + 1;
      assert u[i] == t[i'] && u[j] == t[j'];
    }
    var v := [ds[|ds| - 1]] + s;
    forall i, j | 0 <= i < j < |v| ensures v[i] < v[j] { assert v[i] == t[|ds| - 1 + i] && v[j] == t[|ds| - 1 + j]; }
    if s != [] { assert t[|ds| - 1] < t[|ds|]; }
  }

  // ---- 32-bit integers

  type Int32 = x: int | -0x8000_0000 <= x < 0x8000_0000

  /** x in 32 bits, wrapping round. */
  function Wrap(x: int): Int32 { (x + 0x8000_0000) % 0x1_0000_0000 - 0x8000_0000 }

  /** 1 << n where the machine looks at the low five bits of n only. */
  function OneShifted(n: nat): Int32 { Wrap(Pow2(n % 32)) }

  lemma WrapAdd(x: int, y: int)
    ensures Wrap(Wrap(x) + y) == Wrap(x + y)
  {
  }

  lemma WrapFits(x: Int32)
    ensures Wrap(x) == x
  {
  }

  lemma WrapWhole(x: int, k: int)
    ensures Wrap(0x1_0000_0000 * k + x) == Wrap(x)
  {
  }

  lemma PowerIsWhole(n: nat) returns (k: nat)
    requires n >= 32
    ensures Pow2(n) == 0x1_0000_0000 * k
  {
    Pow2Values();
    Pow2Add(32, n - 32);
    k := Pow2(n - 32);
  }

  /** Up to 31 discs the shift tells how many moves there are, and from 32 on it does not. */
  lemma ShiftTells(n: nat)
    ensures Wrap(Pow2(n) - 1) == Wrap(OneShifted(n) - 1) <==> n < 32
  {
    hide Pow2, Wrap, OneShifted;
    var m := n % 32;
    ShiftedIs(n, m);
    WrapAdd(Pow2(m), -1);
    if n < 32 {
      assert m == n;
    } else {
      var k := PowerIsWhole(n);
      WrapWhole(-1, k);
      HalfRange(m);
      WrapFits(Pow2(m) - 1);
      WrapFits(-1);
    }
  }

  lemma ShiftedIs(n: nat, m: nat)
    requires m == n % 32
    ensures OneShifted(n) == Wrap(Pow2(m))
  {
  }

  lemma HalfRange(m: nat)
    requires m < 32
    ensures 0 < Pow2(m) <= 0x8000_0000
  {
    Pow2Monotone(m, 31);
    Pow2Values();
    assert Pow2(32) == 2 * Pow2(31);
  }

  class Hanoi {
    var numDiscs: nat
    var numMoves: Int32
    /** Every disc put on a peg by towers_solve_h, in order. */
    ghost var log: seq<Drop>
    const pegA: List
    const pegB: List
    const pegC: List
    const free: List
    ghost const pool: set<Node>

    ghost predicate Distinct() {
      pegA != pegB && pegA != pegC && pegA != free && pegB != pegC && pegB != free && pegC != free
    }

    ghost predicate IsPeg(p: List) { p == pegA || p == pegB || p == pegC }

    /** The three pegs, in some order. */
    ghost predicate Pegs(s: List, t: List, d: List) {
      Distinct() && IsPeg(s) && IsPeg(t) && IsPeg(d) && s != t && s != d && t != d
    }

    ghost predicate Sound(p: List)
      reads p, p.nodes
    {
      p.Valid() && p.size == |p.nodes|
    }

    ghost predicate Shared(s: List, t: List, d: List)
      reads s, t, d, free
    {
      Partition(s.nodes, t.nodes, d.nodes, free.nodes, pool)
    }

    /** The pegs and the free list are lists, and a partition of the pool. */
    ghost predicate Valid()
      reads pegA, pegB, pegC, free, pegA.nodes, pegB.nodes, pegC.nodes, free.nodes
    {
      Distinct() && Sound(pegA) && Sound(pegB) && Sound(pegC) && free.Valid() && Shared(pegA, pegB, pegC)
    }

    /** Seen from any order of the pegs. */
    ghost predicate ValidPegs(s: List, t: List, d: List)
      reads s, t, d, free, s.nodes, t.nodes, d.nodes, free.nodes
    {
      Pegs(s, t, d) && Sound(s) && Sound(t) && Sound(d) && free.Valid() && Shared(s, t, d)
    }

    lemma AnyOrder(s: List, t: List, d: List)
      requires Pegs(s, t, d)
      ensures Valid() <==> ValidPegs(s, t, d)
    {
      hide Partition, Sound, List.Valid;
      Reorder(pegA.nodes, pegB.nodes, pegC.nodes, free.nodes, pool);
    }

    lemma ThreePegs()
      requires Valid()
      ensures pegA != pegB && pegA != pegC && pegA != free && pegB != pegC && pegB != free && pegC != free
      ensures Pegs(pegA, pegB, pegC) && ValidPegs(pegA, pegB, pegC)
    {
      hide Sound, Shared, List.Valid;
    }

    /** Three pegs without discs beside a free list with all of the pool. */
    constructor (free: List, ghost pool: set<Node>)
      requires free.Valid() && NodeSet(free.nodes) == pool
      ensures Valid() && this.free == free && this.pool == pool && numMoves == 0 && log == []
      ensures pegA.vals == pegB.vals == pegC.vals == [] && fresh(pegA) && fresh(pegB) && fresh(pegC)
    {
      this.free, this.pool, numDiscs, numMoves, log := free, pool, 0, 0, [];
      pegA := new List();
      pegB := new List();
      pegC := new List();
      new;
      hide List.Valid;
    }

    /** A disc taken off a peg. */
    method TakeFrom(p: List, q: List, r: List) returns (val: int)
      requires ValidPegs(p, q, r) && p.vals != []
      modifies p, free, pool
      ensures ValidPegs(p, q, r) && val == old(p.vals[0]) && p.vals == old(p.vals[1..]) && q.vals == old(q.vals) &&
              r.vals == old(r.vals)
      ensures free.nodes == old([p.nodes[0]] + free.nodes)
    {
      hide Partition, Linked, NoRepeats;
      InPool(p, q, r);
      PopPartition(p.nodes, q.nodes, r.nodes, free.nodes, pool);
      val := Pop(free, p);
    }

    lemma InPool(p: List, q: List, r: List)
      requires ValidPegs(p, q, r)
      ensures p.nodes != [] ==> p.nodes[0] in pool
      ensures free.nodes != [] ==> free.nodes[0] in pool
      ensures p.nodes != [] ==> p.nodes[0] !in q.nodes && p.nodes[0] !in r.nodes
      ensures free.nodes != [] ==> free.nodes[0] !in q.nodes && free.nodes[0] !in r.nodes
      ensures NoRepeats(p.nodes) && NoRepeats(free.nodes) && Apart(free.nodes, p.nodes)
    {
    }

    method PutOn(p: List, q: List, r: List, val: int)
      requires ValidPegs(p, q, r) && free.nodes != []
      modifies p, free, pool
      ensures ValidPegs(p, q, r) && p.vals == [val] + old(p.vals) && q.vals == old(q.vals) && r.vals == old(r.vals)
      ensures free.nodes == old(free.nodes[1..])
    {
      hide Partition, Linked, NoRepeats;
      InPool(p, q, r);
      PushPartition(p.nodes, q.nodes, r.nodes, free.nodes, pool);
      Push(free, p, val);
    }

    // ---- solving

    /** A disc moved: popped from one peg, pushed onto another, and counted. */
    method MoveDisc(start: List, temp: List, dest: List)
      requires ValidPegs(start, temp, dest) && start.vals != []
      modifies this`numMoves, this`log, start, dest, free, pool
      ensures ValidPegs(start, temp, dest) && numMoves == Wrap(old(numMoves) + 1) && free.nodes == old(free.nodes)
      ensures start.vals == old(start.vals[1..]) && dest.vals == old([start.vals[0]] + dest.vals) &&
              temp.vals == old(temp.vals)
      ensures log == old(log + [Drop(start.vals[0], dest.vals)])
    {
      hide *;
      ghost var drop, f := Drop(start.vals[0], dest.vals), free.nodes;
      ghost var x := FirstOf(start, temp, dest);
      var val := TakeFrom(start, temp, dest);
      Rotated(start, temp, dest);
      assert free.nodes == [x] + f && free.nodes[1..] == f;
      PutOn(dest, start, temp, val);
      Rotated(dest, start, temp);
      Rotated(temp, dest, start);
      numMoves := Wrap(numMoves + 1);
      log := log + [drop];
    }

    lemma FirstOf(s: List, t: List, d: List) returns (x: Node)
      requires ValidPegs(s, t, d) && s.vals != []
      ensures s.nodes != [] && x == s.nodes[0]
    {
      x := s.nodes[0];
    }

    lemma Rotated(s: List, t: List, d: List)
      requires ValidPegs(s, t, d)
      ensures ValidPegs(d, s, t)
    {
      hide Sound, Shared, List.Valid;
      AnyOrder(s, t, d);
      AnyOrder(d, s, t);
    }

    /** numMoves counts the moves, in 32 bits. */
    ghost predicate Counted()
      reads this
    {
      numMoves == Wrap(|log|)
    }

    /** towers_solve_h: the n discs ds on top of the start peg go to the top of dest. */
    method SolveH(n: nat, start: List, temp: List, dest: List, ghost ds: seq<int>, ghost s: seq<int>,
                  ghost t: seq<int>, ghost d: seq<int>)
      requires ValidPegs(start, temp, dest) && n >= 1 && |ds| == n && AllLegal(log) && Counted()
      requires start.vals == ds + s && temp.vals == t && dest.vals == d && Sorted(ds + s) && Sorted(ds[..n - 1] + t) &&
               Sorted(ds + d)
      modifies this`numMoves, this`log, pegA, pegB, pegC, free, pool
      ensures ValidPegs(start, temp, dest) && free.nodes == old(free.nodes)
      ensures start.vals == s && temp.vals == t && dest.vals == ds + d
      ensures |log| == old(|log|) + Pow2(n) - 1 && Counted() && AllLegal(log)
      decreases n
    {
      hide Sound, Shared, List.Valid, Sorted;
      SortedParts(ds, s);
      SortedParts(ds, d);
      if n == 1 {
        assert (ds + s)[1..] == s && [ds[0]] + d == ds + d;
        WrapAdd(|log|, 1);
        MoveDisc(start, temp, dest);
      } else {
        ghost var es, x := ds[..n - 1], [ds[n - 1]];
        assert es + (x + d) == ds + d && es + (x + s) == ds + s && |x| == 1 && x[..0] + (es + t) == es + t;
        SortedParts(es, d);
        SortedParts(es, s);
        AnyOrder(start, temp, dest);
        AnyOrder(start, dest, temp);
        SolveH(n - 1, start, dest, temp, es, x + s, d, t);
        AnyOrder(start, dest, temp);
        AnyOrder(start, temp, dest);
        SolveH(1, start, temp, dest, x, s, es + t, d);
        AnyOrder(start, temp, dest);
        AnyOrder(temp, start, dest);
        SolveH(n - 1, temp, start, dest, es, t, s, x + d);
        AnyOrder(temp, start, dest);
        AnyOrder(start, temp, dest);
      }
    }

    /** towers_init, after the list_init of pegs that are empty already. */
    method Init(n: nat)
      requires Valid() && pegA.vals == pegB.vals == pegC.vals == [] && n <= |free.nodes|
      modifies this, pegA, pegB, pegC, free, pool
      ensures Valid() && Ready(n) && numDiscs == n && |free.nodes| == old(|free.nodes|) - n && log == []
    {
      hide *;
      numDiscs := n;
      numMoves := 0;
      log := [];
      ThreePegs();
      NoDiscs(n);
      var i := 0;
      while i < n
        invariant 0 <= i <= n && ValidPegs(pegA, pegB, pegC) && |free.nodes| == old(|free.nodes|) - i
        invariant numDiscs == n && numMoves == 0 && log == []
        invariant pegA.vals == Discs(n)[n - i..] && pegB.vals == pegC.vals == []
      {
        PutOn(pegA, pegB, pegC, n - i);
        NextDisc(n, i);
        i := i + 1;
      }
      StartOver(n);
    }

    /** All discs are on the first peg. */
    ghost predicate Ready(n: nat)
      reads this, pegA, pegB, pegC
    {
      numDiscs == n && numMoves == 0 && pegA.vals == Discs(n) && pegB.vals == pegC.vals == []
    }

    lemma StartOver(n: nat)
      requires ValidPegs(pegA, pegB, pegC) && numDiscs == n && numMoves == 0 && pegA.vals == Discs(n)[0..] &&
               pegB.vals == pegC.vals == []
      ensures Valid() && Ready(n)
    {
      AnyOrder(pegA, pegB, pegC);
    }

    /** All discs are on the last peg, after 2^n - 1 moves, none of them onto a smaller disc, and
        counted in 32 bits. */
    ghost predicate Solved(n: nat)
      reads this, pegA, pegB, pegC
    {
      && numDiscs == n && |log| == Pow2(n) - 1 && Counted() && AllLegal(log)
      && pegA.vals == pegB.vals == [] && pegC.vals == Discs(n)
    }

    /** towers_solve */
    method Solve()
      requires Valid() && Ready(numDiscs) && numDiscs >= 1 && log == []
      modifies this`numMoves, this`log, pegA, pegB, pegC, free, pool
      ensures Valid() && Solved(numDiscs) && free.nodes == old(free.nodes)
    {
      hide Valid, ValidPegs;
      var n := numDiscs;
      ThreePegs();
      assert Discs(n) + [] == Discs(n) && Sorted(Discs(n)) && Sorted(Discs(n)[..n - 1]) &&
             Discs(n)[..n - 1] + [] == Discs(n)[..n - 1];
      SolveH(n, pegA, pegB, pegC, Discs(n), [], [], []);
      AnyOrder(pegA, pegB, pegC);
    }

    /** list_clear, for one peg. */
    method ClearPeg(p: List, q: List, r: List)
      requires ValidPegs(p, q, r)
      modifies p, free, pool
      ensures ValidPegs(p, q, r) && p.vals == [] && q.vals == old(q.vals) && r.vals == old(r.vals)
      ensures |free.nodes| == old(|free.nodes| + |p.nodes|)
    {
      hide *;
      SizeIs(p, q, r);
      while p.size > 0
        invariant ValidPegs(p, q, r) && p.size == |p.nodes| == |p.vals| && q.vals == old(q.vals) &&
                  r.vals == old(r.vals)
        invariant |free.nodes| + |p.nodes| == old(|free.nodes| + |p.nodes|)
        decreases p.size
      {
        var val := TakeFrom(p, q, r);
        SizeIs(p, q, r);
      }
    }

    lemma SizeIs(p: List, q: List, r: List)
      requires ValidPegs(p, q, r)
      ensures p.size == |p.nodes| == |p.vals|
    {
    }

    /** towers_clear: all nodes go back to the free list, and then the discs onto the first peg. */
    method Clear()
      requires Valid() && numDiscs <= |pegA.nodes| + |pegB.nodes| + |pegC.nodes| + |free.nodes|
      modifies this, pegA, pegB, pegC, free, pool
      ensures Valid() && Ready(numDiscs) && log == [] && numDiscs == old(numDiscs)
      ensures |free.nodes| + numDiscs == old(|pegA.nodes| + |pegB.nodes| + |pegC.nodes| + |free.nodes|)
    {
      hide *;
      ThreePegs();
      ghost var total := |pegA.nodes| + |pegB.nodes| + |pegC.nodes| + |free.nodes|;
      ClearPeg(pegA, pegB, pegC);
      Rotated(pegA, pegB, pegC);
      Rotated(pegC, pegA, pegB);
      AllSizes(pegB, pegC, pegA);
      ClearPeg(pegB, pegC, pegA);
      Rotated(pegB, pegC, pegA);
      Rotated(pegA, pegB, pegC);
      AllSizes(pegC, pegA, pegB);
      ClearPeg(pegC, pegA, pegB);
      Rotated(pegC, pegA, pegB);
      Rotated(pegB, pegC, pegA);
      AnyOrder(pegA, pegB, pegC);
      Init(numDiscs);
    }

    lemma Sizes()
      requires Valid()
      ensures |pegA.nodes| == |pegA.vals| && |pegB.nodes| == |pegB.vals| && |pegC.nodes| == |pegC.vals|
    {
    }

    lemma AllSizes(p: List, q: List, r: List)
      requires ValidPegs(p, q, r)
      ensures p.size == |p.nodes| == |p.vals| && q.size == |q.nodes| == |q.vals| && r.size == |r.nodes| == |r.vals|
    {
    }

    /** The number of moves is what towers_verify asks for. */
    ghost predicate Claimed()
      reads this
    {
      numMoves == Wrap(OneShifted(numDiscs) - 1)
    }

    /** After 2^n - 1 moves it is, for fewer than 32 discs. */
    lemma SolvedClaimed(n: nat)
      requires Solved(n)
      ensures Claimed() <==> n < 32
    {
      ShiftTells(n);
    }

    /** towers_verify: 0 exactly when all discs are on the last peg after the number of moves
        that the shift says, and 6 when only that number is another. */
    method Verify() returns (r: nat)
      requires Valid()
      ensures r == 0 <==> pegA.vals == pegB.vals == [] && pegC.vals == Discs(numDiscs) && Claimed()
      ensures r == 6 <==> pegA.vals == pegB.vals == [] && pegC.vals == Discs(numDiscs) && !Claimed()
      ensures r == 2 <==> pegA.vals != []
    {
      hide Apart, Shared;
      if pegA.size != 0 { return 2; }
      if pegB.size != 0 { return 3; }
      if pegC.size != numDiscs { return 4; }
      var count := 0;
      var ptr := pegC.head;
      while ptr != null
        invariant 0 <= count <= |pegC.nodes| && ptr == (if count < |pegC.nodes| then pegC.nodes[count] else null)
        invariant forall i | 0 <= i < count :: pegC.vals[i] == i + 1
        decreases |pegC.nodes| - count
      {
        count := count + 1;
        assert pegC.nodes[count - 1].val == pegC.vals[count - 1] &&
               pegC.nodes[count - 1].next == if count < |pegC.nodes| then pegC.nodes[count] else null;
        if ptr.val != count { return 5; }
        ptr := ptr.next;
      }
      assert pegC.vals == Discs(numDiscs);
      if numMoves != Wrap(OneShifted(numDiscs) - 1) { return 6; }
      r := 0;
    }
  }

  /** The free list as it is set up at the start, with a pool of p nodes in a row. */
  method FreeList(p: nat) returns (free: List, ghost pool: set<Node>)
    requires p >= 1
    ensures fresh(free) && fresh(pool) && free.Valid() && NodeSet(free.nodes) == pool && |free.nodes| == p
  {
    var nodes: seq<Node> := [];
    for i := 0 to p
      invariant |nodes| == i && fresh(nodes) && NoRepeats(nodes)
    {
      var x := new Node(if i == p - 1 then 99 else i);
      nodes := nodes + [x];
    }
    free := new List();
    free.head := nodes[0];
    free.size := p;
    for i := 0 to p - 1
      invariant fresh(free) && fresh(nodes) && |nodes| == p && free.head == nodes[0] && NoRepeats(nodes)
      invariant forall j {:trigger nodes[j].next} | 0 <= j < i :: nodes[j].next == nodes[j + 1]
      modifies nodes
    {
      nodes[i].next := nodes[i + 1];
    }
    nodes[p - 1].next := null;
    free.nodes, free.vals, pool := nodes, seq(p, i requires 0 <= i < p reads nodes => nodes[i].val), NodeSet(nodes);
  }

  /** The benchmark: with a pool of at least n nodes it always solves the puzzle, and reports
      success for every n below 32.  From 32 on the shift in the check wraps round. */
  method Benchmark(n: nat, p: nat, preallocate: bool) returns (r: nat)
    requires 1 <= n <= p
    ensures r == if n < 32 then 0 else 6
  {
    hide Hanoi.Valid, List.Valid, Linked, NoRepeats, NodeSet, Pow2;
    var free, pool := FreeList(p);
    var towers := new Hanoi(free, pool);
    towers.Init(n);
    if preallocate { towers.Solve(); }
    towers.Sizes();
    towers.Clear();
    towers.Solve();
    towers.SolvedClaimed(n);
    r := towers.Verify();
  }

  lemma NoDiscs(n: nat)
    ensures |Discs(n)| == n && Discs(n)[n..] == []
  {
  }

  lemma NextDisc(n: nat, i: nat)
    requires i < n
    ensures [n - i] + Discs(n)[n - i..] == Discs(n)[n - (i + 1)..]
  {
  }
}
