/** vm.c: the demand pager of the virtual-memory test environment.  Page faults are
    served from a free list; the exit call evicts everything and checks the accessed
    and dirty bits. */
module Pager {
  import Lfsr

  const PGSIZE := 4096
  const MAX_TEST_PAGES := Lfsr.MAX_TEST_PAGES

  /** The first DRAM page; all physical page numbers below are absolute. */
  const DRAM_BASE := 0x8_0000

  /** A leaf entry of the user page table; Mapped entries are valid, user, readable,
      writable and executable. */
  datatype Pte = Zero | Mapped(ppn: nat, a: bool, d: bool)

  /** A pointer to an element of freelist_nodes or of user_mapping. */
  datatype Ptr = Null | Node(i: nat) | Mapping(i: nat)

  /** freelist_t; addr 0 means that no frame is held. */
  datatype Entry = Entry(addr: nat, next: Ptr)

  type Page = p: seq<int> | |p| == PGSIZE witness seq(PGSIZE, _ => 0)

  datatype Cause = Fetch | Load | Store

  /** The physical page number of the i-th free frame: vm_boot scatters the frames with
      the shift register, from a random start. */
  function FrameOf(random: nat, i: nat): (ppn: nat)
    ensures 1 <= random < 64 ==> DRAM_BASE + 64 <= ppn <= DRAM_BASE + 126
  {
    DRAM_BASE + MAX_TEST_PAGES + Lfsr.Orbit(random, i)
  }

  /** No two free frames coincide. */
  lemma FramesDistinct(random: nat, i: nat, j: nat)
    requires 1 <= random < 64 && i < MAX_TEST_PAGES && j < MAX_TEST_PAGES && i != j
    ensures FrameOf(random, i) != FrameOf(random, j)
  {
    if i < j { Lfsr.Distinct(random, i, j); } else { Lfsr.Distinct(random, j, i); }
  }

  /** What the hardware lets through: it faults on a clear accessed bit, and on a store
      to a page whose dirty bit is clear. */
  predicate Allows(pte: Pte, cause: Cause) {
    pte.Mapped? && pte.a && (cause == Store ==> pte.d)
  }

  /** An entry after the fault it caused has been handled. */
  function Served(pte: Pte, ppn: nat): Pte {
    match pte
    case Zero => Mapped(ppn, false, false)
    case Mapped(p, a, d) => if !a then Mapped(p, true, d) else Mapped(p, true, true)
  }

  lemma SizeWithin(pages: set<int>, n: nat)
    requires forall p | p in pages :: 1 <= p <= n
    ensures |pages| <= n
  {
    Lfsr.RangeCount(n);
    forall p | p in pages ensures p in Lfsr.UpTo(n) {}
    assert |Lfsr.UpTo(n) - pages| == |Lfsr.UpTo(n)| - |pages|;
  }

  // ---- the invariant, on the contents of the arrays

  /** The contents of the page table, the mapping table and DRAM (page i of DRAM backs
      user page i), with the free-list node each mapped page took. */
  datatype Contents = Contents(random: nat, pt: seq<Pte>, um: seq<Entry>, mem: seq<Page>, slot: map<int, nat>) {

    ghost predicate Shape() {
      1 <= random < 64 && MAX_TEST_PAGES == |pt| == |um| && |mem| == 127
    }

    /** The DRAM page of the k-th node's frame. */
    function Frame(k: nat): (f: int)
      requires 1 <= random < 64
      ensures 64 <= f < 127
    {
      FrameOf(random, k) - DRAM_BASE
    }

    ghost predicate PageInv(i: int)
      requires Shape() && 0 <= i < MAX_TEST_PAGES
    {
      if i in slot then
        && 1 <= i && slot[i] < |slot|
        && pt[i].Mapped? && pt[i].ppn == FrameOf(random, slot[i])
        && um[i] == Entry(FrameOf(random, slot[i]) * PGSIZE, Node(slot[i] + 1))
        && (pt[i].d || mem[Frame(slot[i])] == mem[i])
      else
        pt[i] == Zero && um[i].addr == 0
    }

    /** Page table, mapping table and memory agree: the first |slot| nodes are taken, each by
        one page, whose mapping is a copy of the node; and a page whose dirty bit is clear
        equals its backing page. */
    ghost predicate Inv() {
      && Shape()
      && (forall i | i in slot :: 1 <= i < MAX_TEST_PAGES)
      && (forall i | 0 <= i < MAX_TEST_PAGES :: PageInv(i))
      && (forall i, j | i in slot && j in slot && i != j :: slot[i] != slot[j])
    }

    /** What the user program sees at page i. */
    ghost function View(i: int): Page
      requires Shape() && 0 <= i < MAX_TEST_PAGES
    {
      if i in slot then mem[Frame(slot[i])] else mem[i]
    }

    ghost function Flat(): (r: seq<Page>)
      requires Shape()
      ensures |r| == MAX_TEST_PAGES && forall i | 0 <= i < MAX_TEST_PAGES :: r[i] == View(i)
    {
      seq(MAX_TEST_PAGES, i requires 0 <= i < MAX_TEST_PAGES => View(i))
    }

    /** Page i mapped to the next free node's frame, with a copy of its backing page. */
    ghost function MapIn(i: int, next: Ptr): Contents
      requires Shape() && 0 <= i < MAX_TEST_PAGES
    {
      var k := |slot|;
      var ppn := FrameOf(random, k);
      Contents(random, pt[i := Mapped(ppn, false, false)], um[i := Entry(ppn * PGSIZE, next)], mem[Frame(k) := mem[i]],
               slot[i := k])
    }

    lemma FramesApart(k: nat, m: nat)
      requires 1 <= random < 64 && k < MAX_TEST_PAGES && m < MAX_TEST_PAGES && k != m
      ensures Frame(k) != Frame(m)
    {
      FramesDistinct(random, k, m);
    }

    lemma TakenNodes()
      requires Inv()
      ensures |slot| < MAX_TEST_PAGES && forall i | i in slot :: slot[i] < |slot|
      ensures forall i | 1 <= i < MAX_TEST_PAGES && i !in slot :: |slot| < MAX_TEST_PAGES - 1
    {
      forall p | p in slot ensures slot[p] < |slot| { assert PageInv(p); }
      SizeWithin(slot.Keys, MAX_TEST_PAGES - 1);
      forall i | 1 <= i < MAX_TEST_PAGES && i !in slot ensures |slot| < MAX_TEST_PAGES - 1 {
        SizeWithin(slot.Keys + {i}, MAX_TEST_PAGES - 1);
      }
    }

    /** Mapping a page keeps the invariant and everything the program sees. */
    lemma MapInKeeps(i: int, next: Ptr)
      requires Inv() && 1 <= i < MAX_TEST_PAGES && i !in slot
      requires next == Node(|slot| + 1)
      ensures MapIn(i, next).Inv() && MapIn(i, next).Flat() == Flat() && MapIn(i, next).mem[..64] == mem[..64]
      ensures |slot| < MAX_TEST_PAGES - 1 && |MapIn(i, next).slot| == |slot| + 1
    {
      TakenNodes();
      var t := MapIn(i, next);
      assert t.slot.Keys == slot.Keys + {i};
      forall p | 0 <= p < MAX_TEST_PAGES ensures t.PageInv(p) && t.View(p) == View(p) { MapInPage(i, next, p); }
      hide PageInv, View, MapIn;
      assert t.Inv();
    }

    lemma MapInPage(i: int, next: Ptr, p: int)
      requires Inv() && 1 <= i < MAX_TEST_PAGES && i !in slot && 0 <= p < MAX_TEST_PAGES
      requires next == Node(|slot| + 1)
      requires |slot| < MAX_TEST_PAGES && |MapIn(i, next).slot| == |slot| + 1
      ensures MapIn(i, next).PageInv(p) && MapIn(i, next).View(p) == View(p)
    {
      assert PageInv(p);
      if p in slot { FramesApart(slot[p], |slot|); }
    }

    lemma HasShape()
      requires Inv()
      ensures Shape()
    {
    }

    lemma UnmappedPage(i: int)
      requires Inv() && 0 <= i < MAX_TEST_PAGES && pt[i] == Zero
      ensures i !in slot && um[i].addr == 0
    {
      assert PageInv(i);
    }

    /** What handle_fault makes of an entry, and that its assertion holds. */
    lemma ServedBy(i: int, cause: Cause)
      requires Inv() && 0 <= i < MAX_TEST_PAGES && !Allows(pt[i], cause)
      ensures pt[i] == Zero || (pt[i].Mapped? && (pt[i].a ==> !pt[i].d && cause == Store))
      ensures forall ppn :: Served(pt[i], ppn) == if pt[i] == Zero then Mapped(ppn, false, false)
                else pt[i].(a := true, d := pt[i].a || pt[i].d)
    {
      assert PageInv(i);
    }

    /** Page i's accessed bit set, and its dirty bit set or left alone. */
    ghost function WithBits(i: int, d: bool): Contents
      requires Shape() && 0 <= i < MAX_TEST_PAGES && pt[i].Mapped?
    {
      this.(pt := pt[i := pt[i].(a := true, d := d)])
    }

    lemma WithBitsKeeps(i: int, d: bool)
      requires Inv() && 0 <= i < MAX_TEST_PAGES && pt[i].Mapped? && (pt[i].d ==> d)
      ensures WithBits(i, d).Inv() && WithBits(i, d).Flat() == Flat()
    {
      var t := WithBits(i, d);
      forall p | 0 <= p < MAX_TEST_PAGES ensures t.PageInv(p) && t.View(p) == View(p) { assert PageInv(p); }
    }

    /** A user store to page i, which must be mapped. */
    ghost function Stored(i: int, off: nat, value: int): Contents
      requires Shape() && i in slot && off < PGSIZE
    {
      this.(mem := mem[Frame(slot[i]) := mem[Frame(slot[i])][off := value]])
    }

    /** Only page i changes for the program, and nothing below DRAM page 64 changes. */
    lemma StoredKeeps(i: int, off: nat, value: int)
      requires Inv() && i in slot && pt[i].Mapped? && pt[i].d && off < PGSIZE
      ensures Stored(i, off, value).Inv() && Stored(i, off, value).Flat() == Flat()[i := Flat()[i][off := value]]
      ensures Stored(i, off, value).mem[..64] == mem[..64]
    {
      TakenNodes();
      var t := Stored(i, off, value);
      forall p | 0 <= p < MAX_TEST_PAGES
        ensures t.PageInv(p) && t.View(p) == if p == i then View(i)[off := value] else View(p)
      {
        assert PageInv(p);
        if p in slot && p != i { FramesApart(slot[p], slot[i]); }
      }
    }

    /** During the exit sweep: pages below n are evicted and equal their backing pages. */
    ghost predicate Swept(n: int) {
      && Shape() && |slot| < MAX_TEST_PAGES
      && (forall i | i in slot :: 1 <= i < MAX_TEST_PAGES && slot[i] < |slot|)
      && (forall i, j | i in slot && j in slot && i != j :: slot[i] != slot[j])
      && (forall i | n <= i < MAX_TEST_PAGES && i >= 0 :: PageInv(i))
      && (forall i | 0 <= i < n && i < MAX_TEST_PAGES :: um[i].addr == 0 && View(i) == mem[i])
    }

    lemma SweepStart()
      requires Inv()
      ensures Swept(1)
    {
      TakenNodes();
      assert PageInv(0);
    }

    /** With as many nodes taken as there are pages, every page is mapped. */
    lemma AllMapped()
      requires Inv()
      ensures |slot| == MAX_TEST_PAGES - 1 ==> forall i | 1 <= i < MAX_TEST_PAGES :: i in slot
    {
      TakenNodes();
    }

    lemma SweptAt(n: int)
      requires Swept(n) && 0 <= n < MAX_TEST_PAGES
      ensures Shape() && PageInv(n)
    {
    }

    lemma SweepEnd()
      requires Swept(MAX_TEST_PAGES)
      ensures Shape() && forall i | 0 <= i < MAX_TEST_PAGES :: um[i].addr == 0 && Flat()[i] == mem[i]
      ensures forall p | p in slot :: 1 <= p < MAX_TEST_PAGES && slot[p] < |slot| < MAX_TEST_PAGES
    {
    }

    /** Page n evicted: its mapping gone, its frame overwritten with the backing page. */
    ghost function Evicted(n: int, um': seq<Entry>): Contents
      requires Shape() && 0 <= n < MAX_TEST_PAGES
    {
      if n in slot then this.(um := um', mem := mem[Frame(slot[n]) := mem[n]]) else this
    }

    lemma EvictedKeeps(n: int, um': seq<Entry>)
      requires Swept(n) && 1 <= n < MAX_TEST_PAGES
      requires |um'| == MAX_TEST_PAGES &&
               forall i | 0 <= i < MAX_TEST_PAGES :: um'[i].addr == if i == n then 0 else um[i].addr
      requires forall i | n < i < MAX_TEST_PAGES :: um'[i] == um[i]
      ensures Evicted(n, um').Swept(n + 1) && Evicted(n, um').mem[..64] == mem[..64]
    {
      var t := Evicted(n, um');
      assert PageInv(n);
      if n in slot {
        forall p | n < p < MAX_TEST_PAGES ensures t.PageInv(p) {
          assert PageInv(p);
          if p in slot { FramesApart(slot[p], slot[n]); }
        }
        forall p | 0 <= p <= n ensures t.um[p].addr == 0 && t.View(p) == t.mem[p] {
          if p in slot && p != n { FramesApart(slot[p], slot[n]); }
        }
      }
      hide PageInv, View;
    }
  }

  // ---- the mapped pages in order

  /** The first mapped page after p, or MAX_TEST_PAGES. */
  function NextMapped(slot: map<int, nat>, p: nat): (q: nat)
    ensures p < MAX_TEST_PAGES ==> p < q <= MAX_TEST_PAGES && (q < MAX_TEST_PAGES ==> q in slot)
    decreases MAX_TEST_PAGES - p
  {
    if p + 1 >= MAX_TEST_PAGES then MAX_TEST_PAGES else if p + 1 in slot then p + 1 else NextMapped(slot, p + 1)
  }

  /** The last mapped page before n, or 0. */
  function LastMapped(slot: map<int, nat>, n: nat): (p: nat)
    ensures p == 0 || (p in slot && p < n)
  {
    if n <= 1 then 0 else if n - 1 in slot then n - 1 else LastMapped(slot, n - 1)
  }

  ghost predicate AnyMapped(slot: map<int, nat>) {
    exists p: nat | 0 < p < MAX_TEST_PAGES :: p in slot
  }

  lemma {:induction false} NextAfterLast(slot: map<int, nat>, n: nat, m: nat)
    requires n <= m < MAX_TEST_PAGES && m in slot && 1 <= n && forall q | n <= q < m :: q !in slot
    ensures NextMapped(slot, LastMapped(slot, n)) == m
  {
    var p := LastMapped(slot, n);
    if n <= 1 || n - 1 in slot {
      NoneUntil(slot, p, m);
    } else {
      NextAfterLast(slot, n - 1, m);
    }
  }

  lemma {:induction false} NoneUntil(slot: map<int, nat>, p: nat, m: nat)
    requires p < m < MAX_TEST_PAGES && m in slot && forall q | p < q < m :: q !in slot
    ensures NextMapped(slot, p) == m
    decreases m - p
  {
    if p + 1 < m { NoneUntil(slot, p + 1, m); }
  }

  lemma LastNow(slot: map<int, nat>, n: nat)
    requires n in slot && n >= 1
    ensures LastMapped(slot, n + 1) == n && LastMapped(slot, n) < n
  {
  }

  lemma {:induction false} MappedBefore(slot: map<int, nat>, n: nat, p: nat)
    requires p in slot && 0 < p < n
    ensures LastMapped(slot, n) >= p
  {
    if n - 1 !in slot { MappedBefore(slot, n - 1, p); }
  }

  // ---- flat memory, the reference

  datatype Access = LoadAt(addr: nat) | FetchAt(addr: nat) | StoreAt(addr: nat, value: int)

  /** What one access does to a memory without paging. */
  function Accessed(flat: seq<Page>, a: Access): (r: seq<Page>)
    requires |flat| == MAX_TEST_PAGES && a.addr < MAX_TEST_PAGES * PGSIZE
    ensures |r| == MAX_TEST_PAGES
  {
    var i := a.addr / PGSIZE;
    if a.StoreAt? then flat[i := flat[i][a.addr % PGSIZE := a.value]] else flat
  }

  /** What a load or fetch returns. */
  function Answer(flat: seq<Page>, a: Access): seq<int>
    requires |flat| == MAX_TEST_PAGES && a.addr < MAX_TEST_PAGES * PGSIZE
  {
    if a.StoreAt? then [] else [flat[a.addr / PGSIZE][a.addr % PGSIZE]]
  }

  predicate InMemory(accesses: seq<Access>) {
    forall k | 0 <= k < |accesses| :: accesses[k].addr < MAX_TEST_PAGES * PGSIZE
  }

  /** What a memory without paging holds after the accesses. */
  function FlatMemory(flat: seq<Page>, accesses: seq<Access>): (r: seq<Page>)
    requires |flat| == MAX_TEST_PAGES && InMemory(accesses)
    ensures |r| == MAX_TEST_PAGES
  {
    if accesses == [] then flat
    else Accessed(FlatMemory(flat, accesses[..|accesses| - 1]), accesses[|accesses| - 1])
  }

  /** What the loads and fetches return. */
  function FlatResults(flat: seq<Page>, accesses: seq<Access>): seq<int>
    requires |flat| == MAX_TEST_PAGES && InMemory(accesses)
  {
    if accesses == [] then []
    else
      var earlier := accesses[..|accesses| - 1];
      FlatResults(flat, earlier) + Answer(FlatMemory(flat, earlier), accesses[|accesses| - 1])
  }

  lemma FlatOn(flat: seq<Page>, accesses: seq<Access>, k: nat)
    requires |flat| == MAX_TEST_PAGES && InMemory(accesses) && k < |accesses|
    ensures InMemory(accesses[..k]) && InMemory(accesses[..k + 1])
    ensures FlatMemory(flat, accesses[..k + 1]) == Accessed(FlatMemory(flat, accesses[..k]), accesses[k])
    ensures FlatResults(flat, accesses[..k + 1]) ==
            FlatResults(flat, accesses[..k]) + Answer(FlatMemory(flat, accesses[..k]), accesses[k])
  {
    hide Accessed, Answer;
    assert accesses[..k + 1][..k] == accesses[..k];
  }

  /** How many faults an entry can still cause. */
  function Faults(pte: Pte): nat {
    match pte
    case Zero => 3
    case Mapped(_, a, d) => (if a then 0 else 1) + if d then 0 else 1
  }

  // ---- the pager

  class Vm {
    const random: nat
    const user_l3pt: array<Pte>
    const user_mapping: array<Entry>
    const freelist_nodes: array<Entry>
    var freelist_head: Ptr
    var freelist_tail: Ptr
    const mem: array<Page>
    ghost var slot: map<int, nat>

    ghost function State(): Contents
      reads this, user_l3pt, user_mapping, mem
    {
      Contents(random, user_l3pt[..], user_mapping[..], mem[..], slot)
    }

    /** The free list as vm_boot built it, with the first |slot| nodes taken. */
    ghost predicate FreeList()
      reads this, freelist_nodes
    {
      && freelist_nodes.Length == MAX_TEST_PAGES && |slot| < MAX_TEST_PAGES
      && (forall i | 0 <= i < MAX_TEST_PAGES :: freelist_nodes[i] ==
            Entry(FrameOf(random, i) * PGSIZE, if i + 1 < MAX_TEST_PAGES then Node(i + 1) else Null))
      && freelist_head == Node(|slot|)
      && freelist_tail == if |slot| < MAX_TEST_PAGES - 1 then Node(MAX_TEST_PAGES - 1) else Null
    }

    ghost predicate Valid()
      reads this, user_l3pt, user_mapping, freelist_nodes, mem
    {
      State().Inv() && FreeList() && user_mapping != freelist_nodes
    }

    /** vm_boot: an empty page table and the free list, frames in shift-register order. */
    constructor (entropy: nat, image: array<Page>)
      requires image.Length == 127
      ensures Valid() && Settled() && slot == map[] && mem == image
      ensures fresh(user_l3pt) && fresh(user_mapping) && fresh(freelist_nodes)
      ensures forall i | 0 <= i < MAX_TEST_PAGES :: State().Flat()[i] == image[i]
    {
      var r := 1 + entropy % MAX_TEST_PAGES;
      random := r;
      mem := image;
      user_l3pt := new Pte[MAX_TEST_PAGES](_ => Zero);
      user_mapping := new Entry[MAX_TEST_PAGES](_ => Entry(0, Null));
      freelist_nodes := new Entry[MAX_TEST_PAGES](_ => Entry(0, Null));
      freelist_head := Node(0);
      freelist_tail := Node(MAX_TEST_PAGES - 1);
      slot := map[];
      new;
      for i := 0 to MAX_TEST_PAGES
        invariant r == Lfsr.Orbit(random, i)
        invariant slot == map[] && freelist_head == Node(0) && freelist_tail == Node(MAX_TEST_PAGES - 1)
        invariant user_l3pt[..] == seq(MAX_TEST_PAGES, _ => Zero) &&
                  user_mapping[..] == seq(MAX_TEST_PAGES, _ => Entry(0, Null))
        invariant forall j | 0 <= j < i :: freelist_nodes[j] == Entry(FrameOf(random, j) * PGSIZE, Node(j + 1))
      {
        freelist_nodes[i] := Entry((DRAM_BASE + MAX_TEST_PAGES + r) * PGSIZE, Node(i + 1));
        r := Lfsr.Next(r);
      }
      freelist_nodes[MAX_TEST_PAGES - 1] := freelist_nodes[MAX_TEST_PAGES - 1].(next := Null);
      BootInv();
    }

    lemma BootInv()
      requires slot == map[] && 1 <= random < 64 && mem.Length == 127
      requires user_l3pt[..] == seq(MAX_TEST_PAGES, _ => Zero) &&
               user_mapping[..] == seq(MAX_TEST_PAGES, _ => Entry(0, Null))
      ensures State().Inv() && Settled()
    {
    }

    /** The first node of the free list is taken, and the tail pointer cleared with the last
        but one. */
    method TakeNode() returns (entry: Entry)
      requires FreeList() && |slot| < MAX_TEST_PAGES - 1
      modifies this`freelist_head, this`freelist_tail
      ensures entry == Entry(FrameOf(random, |slot|) * PGSIZE, Node(|slot| + 1)) && freelist_head == Node(|slot| + 1)
      ensures freelist_tail == if |slot| + 1 < MAX_TEST_PAGES - 1 then Node(MAX_TEST_PAGES - 1) else Null
    {
      var node := freelist_head;
      assert node != Null;
      entry := freelist_nodes[node.i];
      freelist_head := entry.next;
      if freelist_head == freelist_tail { freelist_tail := Null; }
    }

    /** handle_fault on an unmapped page: take the first free frame, copy the page in. */
    method MapPage(i: nat)
      requires Valid() && 1 <= i < MAX_TEST_PAGES && user_l3pt[i] == Zero
      modifies this, user_l3pt, user_mapping, mem
      ensures Valid() && i !in old(slot) && State() == old(State()).MapIn(i, Node(|old(slot)| + 1))
    {
      hide Contents.Inv, Contents.Flat;
      ghost var s0 := State();
      s0.HasShape();
      s0.UnmappedPage(i);
      s0.MapInKeeps(i, Node(|slot| + 1));
      var entry := TakeNode();
      var new_pte := Mapped(entry.addr / PGSIZE, false, false);
      user_l3pt[i] := new_pte.(a := true, d := true);
      assert user_mapping[i].addr == 0;
      user_mapping[i] := entry;
      mem[new_pte.ppn - DRAM_BASE] := mem[i];
      user_l3pt[i] := new_pte;
      slot := slot[i := |slot|];
      assert State() == s0.MapIn(i, entry.next);
    }

    /** handle_fault.  Its assertions are the ones written as asserts here and in MapPage. */
    method HandleFault(addr: nat, cause: Cause)
      requires Valid() && PGSIZE <= addr < MAX_TEST_PAGES * PGSIZE
      requires !Allows(user_l3pt[addr / PGSIZE], cause)
      modifies this, user_l3pt, user_mapping, mem
      ensures Valid() && State().Flat() == old(State().Flat()) && mem[..64] == old(mem[..64])
      ensures forall j | 0 <= j < MAX_TEST_PAGES && j != addr / PGSIZE :: user_l3pt[j] == old(user_l3pt[j])
      ensures var i := addr / PGSIZE;
              user_l3pt[i].Mapped? && user_l3pt[i] == Served(old(user_l3pt[i]), user_l3pt[i].ppn)
    {
      hide Contents.Inv, Contents.Flat, Contents.PageInv, Served;
      ghost var s0 := State();
      var i := addr / PGSIZE;
      s0.HasShape();
      s0.ServedBy(i, cause);
      if user_l3pt[i] != Zero {
        if !user_l3pt[i].a {
          s0.WithBitsKeeps(i, user_l3pt[i].d);
          user_l3pt[i] := user_l3pt[i].(a := true);
        } else {
          assert !user_l3pt[i].d && cause == Store;
          s0.WithBitsKeeps(i, true);
          user_l3pt[i] := user_l3pt[i].(d := true);
        }
        assert State() == s0.WithBits(i, user_l3pt[i].d);
        return;
      }
      s0.UnmappedPage(i);
      s0.MapInKeeps(i, Node(|slot| + 1));
      MapPage(i);
    }

    /** Every mapped page has its accessed bit. */
    ghost predicate Settled()
      reads this, user_l3pt
    {
      forall i | 0 <= i < user_l3pt.Length :: user_l3pt[i].Mapped? ==> user_l3pt[i].a
    }

    /** One user access up to the point where it goes through: fault, handle, retry. */
    method Touch(addr: nat, cause: Cause)
      requires Valid() && Settled() && PGSIZE <= addr < MAX_TEST_PAGES * PGSIZE
      modifies this, user_l3pt, user_mapping, mem
      ensures Valid() && Settled() && State().Flat() == old(State().Flat()) && mem[..64] == old(mem[..64])
      ensures Allows(user_l3pt[addr / PGSIZE], cause)
    {
      var i := addr / PGSIZE;
      while !Allows(user_l3pt[i], cause)
        invariant Valid() && State().Flat() == old(State().Flat()) && mem[..64] == old(mem[..64])
        invariant forall j | 0 <= j < MAX_TEST_PAGES && j != i :: user_l3pt[j] == old(user_l3pt[j])
        decreases Faults(user_l3pt[i])
      {
        HandleFault(addr, cause);
      }
    }

    /** A user load, or a fetch. */
    method LoadFrom(addr: nat, cause: Cause) returns (value: int)
      requires Valid() && Settled() && PGSIZE <= addr < MAX_TEST_PAGES * PGSIZE
      modifies this, user_l3pt, user_mapping, mem
      ensures Valid() && Settled() && State().Flat() == old(State().Flat()) && mem[..64] == old(mem[..64])
      ensures value == State().Flat()[addr / PGSIZE][addr % PGSIZE]
    {
      Touch(addr, cause);
      var i := addr / PGSIZE;
      assert State().PageInv(i);
      value := mem[user_l3pt[i].ppn - DRAM_BASE][addr % PGSIZE];
    }

    /** A user store. */
    method StoreTo(addr: nat, value: int)
      requires Valid() && Settled() && PGSIZE <= addr < MAX_TEST_PAGES * PGSIZE
      modifies this, user_l3pt, user_mapping, mem
      ensures Valid() && Settled() && mem[..64] == old(mem[..64])
      ensures var i := addr / PGSIZE;
              State().Flat() == old(State().Flat())[i := old(State().Flat())[i][addr % PGSIZE := value]]
    {
      Touch(addr, Store);
      ghost var s := State();
      var i, off := addr / PGSIZE, addr % PGSIZE;
      assert s.PageInv(i);
      s.StoredKeeps(i, off, value);
      var f := user_l3pt[i].ppn - DRAM_BASE;
      mem[f] := mem[f][off := value];
      assert State() == s.Stored(i, off, value);
    }

    /** One user access. */
    method Do(a: Access) returns (result: seq<int>)
      requires Valid() && Settled() && PGSIZE <= a.addr < MAX_TEST_PAGES * PGSIZE
      modifies this, user_l3pt, user_mapping, mem
      ensures Valid() && Settled() && mem[..64] == old(mem[..64])
      ensures State().Flat() == Accessed(old(State().Flat()), a) && result == Answer(old(State().Flat()), a)
    {
      hide Contents.Inv, Contents.Flat;
      match a {
        case LoadAt(addr) =>
          var v := LoadFrom(addr, Load);
          result := [v];
        case FetchAt(addr) =>
          var v := LoadFrom(addr, Fetch);
          result := [v];
        case StoreAt(addr, value) =>
          StoreTo(addr, value);
          result := [];
      }
    }

    /** Any run of in-range user accesses: the program reads what it would read from a
        flat memory, none of the handler's assertions fails, the backing pages keep
        their contents, and every mapped page ends up with its accessed bit. */
    method Run(accesses: seq<Access>) returns (results: seq<int>)
      requires Valid() && Settled() &&
               forall k | 0 <= k < |accesses| :: PGSIZE <= accesses[k].addr < MAX_TEST_PAGES * PGSIZE
      modifies this, user_l3pt, user_mapping, mem
      ensures Valid() && Settled() && mem[..64] == old(mem[..64])
      ensures State().Flat() == FlatMemory(old(State().Flat()), accesses)
      ensures results == FlatResults(old(State().Flat()), accesses)
    {
      hide Contents.PageInv, Contents.Flat, Accessed, Answer;
      results := [];
      ghost var flat := State().Flat();
      var k := 0;
      State().HasShape();
      assert InMemory(accesses) && accesses[..0] == [];
      while k < |accesses|
        invariant 0 <= k <= |accesses| && Valid() && Settled() && mem[..64] == old(mem[..64])
        invariant State().Flat() == FlatMemory(flat, accesses[..k])
        invariant results == FlatResults(flat, accesses[..k])
      {
        FlatOn(flat, accesses, k);
        var result := Do(accesses[k]);
        results := results + result;
        k := k + 1;
      }
      assert accesses[..k] == accesses;
    }

    // ---- the exit sweep

    ghost predicate Tables()
      reads this, user_mapping, freelist_nodes
    {
      user_mapping != freelist_nodes && user_mapping.Length == freelist_nodes.Length == MAX_TEST_PAGES
    }

    /** The list when pages below n have been evicted.  The mapped ones among them are chained
        in order behind the last node, or from the head if that node was taken for the tail too
        early; the tail still points where its node pointed before it was taken. */
    ghost predicate Linked(n: nat)
      reads this, user_mapping, freelist_nodes
    {
      var last, all := LastMapped(slot, n), |slot| == MAX_TEST_PAGES - 1;
      && Tables()
      && freelist_head == (if all && last > 0 then Mapping(NextMapped(slot, 0)) else Node(|slot|))
      && freelist_tail == (if last > 0 then Mapping(last) else if all then Null else Node(MAX_TEST_PAGES - 1))
      && (forall k | 0 <= k < MAX_TEST_PAGES - 1 :: freelist_nodes[k].next == Node(k + 1))
      && freelist_nodes[MAX_TEST_PAGES - 1].next == (if last > 0 && !all then Mapping(NextMapped(slot, 0)) else Null)
      && (forall p: nat | p in slot && 0 < p < MAX_TEST_PAGES :: ChainedAt(n, p))
    }

    ghost predicate ChainedAt(n: nat, p: nat)
      requires Tables() && p in slot && p < MAX_TEST_PAGES
      reads this, user_mapping, freelist_nodes
    {
      user_mapping[p].next == if p < LastMapped(slot, n) then Mapping(NextMapped(slot, p)) else Node(slot[p] + 1)
    }

    lemma SweepLinked()
      requires Valid()
      ensures Linked(1)
    {
      forall p: nat | p in slot && 0 < p < MAX_TEST_PAGES ensures ChainedAt(1, p) { assert State().PageInv(p); }
    }

    /** Nothing is mapped at page n: the list stays. */
    lemma LinkedOn(n: nat)
      requires Linked(n) && 1 <= n < MAX_TEST_PAGES && n !in slot
      ensures Linked(n + 1)
    {
      assert LastMapped(slot, n + 1) == LastMapped(slot, n);
      forall p: nat | p in slot && 0 < p < MAX_TEST_PAGES ensures ChainedAt(n + 1, p) { assert ChainedAt(n, p); }
    }

    /** The end of evict: the entry of page n goes to the tail of the list. */
    method Release(n: nat)
      requires Linked(n) && 1 <= n < MAX_TEST_PAGES && n in slot
      modifies this`freelist_head, this`freelist_tail, user_mapping, freelist_nodes
      ensures Linked(n + 1)
      ensures forall p | 0 <= p < MAX_TEST_PAGES :: user_mapping[p].addr == old(user_mapping[p].addr)
      ensures forall p | n < p < MAX_TEST_PAGES :: user_mapping[p] == old(user_mapping[p])
    {
      hide LastMapped, NextMapped;
      ghost var last := LastMapped(slot, n);
      NextAfterLast(slot, n, n);
      LastNow(slot, n);
      var node := Mapping(n);
      if freelist_tail == Null {
        freelist_head := node;
        freelist_tail := node;
      } else {
        match freelist_tail {
          case Node(j) => freelist_nodes[j] := freelist_nodes[j].(next := node);
          case Mapping(j) => user_mapping[j] := user_mapping[j].(next := node);
        }
        freelist_tail := node;
      }
      forall p: nat | p in slot && 0 < p < MAX_TEST_PAGES ensures ChainedAt(n + 1, p) {
        assert old(ChainedAt(n, p));
        if p < n { MappedBefore(slot, n, p); }
      }
    }

    /** evict, during the exit sweep.  Its assertions are the ones written as asserts. */
    method Evict(addr: nat)
      requires PGSIZE <= addr < MAX_TEST_PAGES * PGSIZE && State().Swept(addr / PGSIZE) && Settled()
      requires Linked(addr / PGSIZE)
      modifies this`freelist_head, this`freelist_tail, user_mapping, freelist_nodes, mem
      ensures State().Swept(addr / PGSIZE + 1) && mem[..64] == old(mem[..64]) && Linked(addr / PGSIZE + 1)
    {
      hide Contents.Swept, Linked;
      ghost var s := State();
      var i := addr / PGSIZE;
      s.SweptAt(i);
      if user_mapping[i].addr != 0 {
        assert user_l3pt[i].a;
        var f := user_l3pt[i].ppn - DRAM_BASE;
        if mem[f] != mem[i] {
          assert user_l3pt[i].d;
          mem[f] := mem[i];
        }
        Unlist(i);
        Release(i);
        assert State() == s.Evicted(i, user_mapping[..]);
        s.EvictedKeeps(i, user_mapping[..]);
      } else {
        LinkedOn(i);
        s.EvictedKeeps(i, s.um);
      }
    }

    method Unlist(i: nat)
      requires Linked(i) && 1 <= i < MAX_TEST_PAGES
      modifies user_mapping
      ensures Linked(i) && user_mapping[..] == old(user_mapping[..])[i := old(user_mapping[i]).(addr := 0)]
    {
      user_mapping[i] := user_mapping[i].(addr := 0);
      assert forall p: nat | p in slot && 0 < p < MAX_TEST_PAGES :: old(ChainedAt(i, p));
    }

    /** Where a walk along the list is after `steps` entries from p. */
    ghost function Walk(p: Ptr, steps: nat): Ptr
      requires Tables()
      reads this, user_mapping, freelist_nodes
    {
      if steps == 0 then p
      else
        match Walk(p, steps - 1)
        case Node(k) => if k < MAX_TEST_PAGES then freelist_nodes[k].next else Null
        case Mapping(k) => if k < MAX_TEST_PAGES then user_mapping[k].next else Null
        case Null => Null
    }

    lemma {:induction false} WalkNodes(p: Ptr, k: nat, steps: nat)
      requires Tables() && forall j | 0 <= j < MAX_TEST_PAGES - 1 :: freelist_nodes[j].next == Node(j + 1)
      requires k + steps < MAX_TEST_PAGES && Walk(p, 1) == Node(k)
      ensures Walk(p, steps + 1) == Node(k + steps)
    {
      if steps > 0 { WalkNodes(p, k, steps - 1); }
    }

    /** The list does not end at its tail, if any page was mapped: a walk on from there comes
        along the stale links to the first node that was never taken, which is the head itself
        unless all pages were mapped. */
    lemma PastTail()
      requires Linked(MAX_TEST_PAGES) &&
               forall p | p in slot :: 1 <= p < MAX_TEST_PAGES && slot[p] < |slot| < MAX_TEST_PAGES
      ensures Walk(freelist_tail, 1) == Null <==> !AnyMapped(slot)
      ensures AnyMapped(slot) ==> exists steps: nat | steps > 0 :: Walk(freelist_tail, steps) == Node(|slot|)
    {
      if AnyMapped(slot) {
        var p: nat :| 0 < p < MAX_TEST_PAGES && p in slot;
        MappedBefore(slot, MAX_TEST_PAGES, p);
        var last := LastMapped(slot, MAX_TEST_PAGES);
        StaleLink(last);
        WalkNodes(freelist_tail, slot[last] + 1, |slot| - slot[last] - 1);
      } else {
        FromLastNode();
      }
    }

    lemma StaleLink(last: nat)
      requires Linked(MAX_TEST_PAGES) && last == LastMapped(slot, MAX_TEST_PAGES) > 0
      ensures last in slot && Walk(freelist_tail, 1) == Node(slot[last] + 1)
    {
      hide LastMapped, NextMapped;
      assert ChainedAt(MAX_TEST_PAGES, last);
      FirstStep(freelist_tail);
    }

    lemma FromLastNode()
      requires Linked(MAX_TEST_PAGES) && !AnyMapped(slot)
      ensures Walk(freelist_tail, 1) == Null
    {
      hide LastMapped, NextMapped;
      FirstStep(freelist_tail);
    }

    lemma FirstStep(p: Ptr)
      requires Tables()
      ensures p.Node? && p.i < MAX_TEST_PAGES ==> Walk(p, 1) == freelist_nodes[p.i].next
      ensures p.Mapping? && p.i < MAX_TEST_PAGES ==> Walk(p, 1) == user_mapping[p.i].next
    {
      assert Walk(p, 0) == p;
    }

    /** With all pages mapped the list starts at the entry of page 1 and goes through all
        entries in order. */
    lemma AllLinked()
      requires Linked(MAX_TEST_PAGES) && forall p | 1 <= p < MAX_TEST_PAGES :: p in slot
      ensures |slot| == MAX_TEST_PAGES - 1 ==> freelist_head == Mapping(1)
      ensures forall p: nat | 1 <= p < MAX_TEST_PAGES - 1 :: user_mapping[p].next == Mapping(p + 1)
    {
      forall p: nat | 1 <= p < MAX_TEST_PAGES - 1
        ensures user_mapping[p].next == Mapping(p + 1)
      {
        assert ChainedAt(MAX_TEST_PAGES, p);
      }
    }

    /** The exit call: evict pages 1 to 62 in turn.  Every assertion of evict holds.  The
        backing pages still hold what they held at boot, and every user page is back to
        it: eviction drops what the program stored.  The free list is linked as Linked and
        PastTail say; it ends at its tail only if no page was mapped. */
    method Exit()
      requires Valid() && Settled()
      modifies this`freelist_head, this`freelist_tail, user_mapping, freelist_nodes, mem
      ensures mem[..64] == old(mem[..64])
      ensures State().Shape() &&
              forall i | 0 <= i < MAX_TEST_PAGES :: user_mapping[i].addr == 0 && State().Flat()[i] == mem[i]
      ensures Linked(MAX_TEST_PAGES) && (Walk(freelist_tail, 1) == Null <==> !AnyMapped(slot))
      ensures AnyMapped(slot) ==> exists steps: nat | steps > 0 :: Walk(freelist_tail, steps) == Node(|slot|)
      ensures |slot| == MAX_TEST_PAGES - 1 ==> freelist_head == Mapping(1)
      ensures |slot| == MAX_TEST_PAGES - 1 ==>
                forall p: nat | 1 <= p < MAX_TEST_PAGES - 1 :: user_mapping[p].next == Mapping(p + 1)
    {
      hide Contents.Swept, Contents.Inv, Linked, Walk;
      ghost var s := State();
      s.HasShape();
      s.SweepStart();
      s.AllMapped();
      SweepLinked();
      var i := 1;
      while i < MAX_TEST_PAGES
        invariant 1 <= i <= MAX_TEST_PAGES && State().Swept(i) && mem[..64] == old(mem[..64]) && Linked(i)
      {
        Evict(i * PGSIZE);
        i := i + 1;
      }
      State().SweepEnd();
      PastTail();
      if |slot| == MAX_TEST_PAGES - 1 { AllLinked(); }
    }
  }
}
