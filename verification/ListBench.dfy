/** core_list_join.c: the other list operations, and core_bench_list, whose promise is
    that the list is back in its original state at the end. */
module ListBench {
  import opened MergeRuns
  import opened CoreList
  import opened Sequences

  // ---- find

  /** What core_list_find looks for: an idx if it is not negative, else a low byte. */
  predicate Matches(c: Cell, idx: S16, data16: U16)
    reads c, c.info
  {
    if idx >= 0 then c.info.idx == idx else c.info.Low() == data16
  }

  /** core_list_find: the first match, or null when there is none. */
  method Find(list: Cell?, idx: S16, data16: U16, ghost s: seq<Cell>) returns (r: Cell?)
    requires IsList(list, s)
    ensures r == null ==> forall i | 0 <= i < |s| :: !Matches(s[i], idx, data16)
    ensures r != null ==>
              exists k ::
                && 0 <= k < |s| && s[k] == r && Matches(r, idx, data16)
                && forall i | 0 <= i < k :: !Matches(s[i], idx, data16)
  {
    r := list;
    ghost var k := 0;
    if idx >= 0 {
      while r != null && r.info.idx != idx
        invariant 0 <= k <= |s| && r == (if k < |s| then s[k] else null)
        invariant forall i | 0 <= i < k :: !Matches(s[i], idx, data16)
        decreases |s| - k
      {
        r := r.next;
        k := k + 1;
      }
    } else {
      while r != null && r.info.Low() != data16
        invariant 0 <= k <= |s| && r == (if k < |s| then s[k] else null)
        invariant forall i | 0 <= i < k :: !Matches(s[i], idx, data16)
        decreases |s| - k
      {
        r := r.next;
        k := k + 1;
      }
    }
  }

  // ---- reverse

  function Reversed<T>(s: seq<T>): (r: seq<T>)
    ensures |r| == |s|
    ensures forall i {:trigger r[i]} | 0 <= i < |s| :: r[i] == s[|s| - 1 - i]
  {
    if s == [] then [] else Reversed(s[1..]) + [s[0]]
  }

  lemma {:induction false} ReversedMultiset<T>(s: seq<T>)
    ensures multiset(Reversed(s)) == multiset(s)
  {
    if s != [] {
      ReversedMultiset(s[1..]);
      assert s == [s[0]] + s[1..];
    }
  }

  /** core_list_reverse. */
  method Reverse(list0: Cell?, ghost s: seq<Cell>) returns (next: Cell?)
    requires IsList(list0, s)
    modifies s`next
    ensures IsList(next, Reversed(s))
    ensures forall c | c in s :: c.info == old(c.info)
  {
    next := null;
    var list := list0;
    ghost var k := 0;
    while list != null
      invariant 0 <= k <= |s| && list == (if k < |s| then s[k] else null)
      invariant next == if k > 0 then s[k - 1] else null
      invariant forall i {:trigger s[i].next} | 0 <= i < k :: s[i].next == if i > 0 then s[i - 1] else null
      invariant Tail(s, k)
      invariant forall c | c in s :: c.info == old(c.info)
      decreases |s| - k
    {
      var tmp := list.next;
      list.next := next;
      next := list;
      list := tmp;
      k := k + 1;
    }
    ghost var t := Reversed(s);
    assert forall i {:trigger t[i].next} | 0 <= i < |t| :: t[i] == s[|s| - 1 - i];
  }

  // ---- move the cell behind the one found to just behind the head

  method MoveBehindHead(list: Cell, found: Cell, ghost s: seq<Cell>, ghost k: nat)
    requires IsList(list, s) && k + 1 < |s| && found == s[k]
    modifies s`next
    ensures IsList(list, Rotated(s, 1, k))
    ensures forall c | c in s :: c.info == old(c.info)
  {
    hide Rotated, NoRepeats;
    ghost var t := Rotated(s, 1, k);
    MoveShape(s, k);
    assert s[0].next == s[1] && s[k].next == s[k + 1];
    assert s[k + 1].next == if k + 2 < |s| then s[k + 2] else null;
    var finder := found.next;
    found.next := finder.next;
    finder.next := list.next;
    list.next := finder;
  }

  /** Where the links of the moved sequence agree already, and the cells that are relinked. */
  lemma MoveShape(s: seq<Cell>, k: nat)
    requires k + 1 < |s| && NoRepeats(s) && Tail(s, 0)
    ensures var t := Rotated(s, 1, k);
            && NoRepeats(t) && t[0] == s[0] && t[1] == s[k + 1] &&
               (k > 0 ==> t[2] == s[1] && t[k + 1] == s[k] && s[k] != s[0])
            && (k + 2 < |s| ==> t[k + 2] == s[k + 2]) && s[k + 1] != s[0] && s[k + 1] != s[k]
            && (forall i {:trigger t[i].next} | 2 <= i < |t| && i != k + 1 ::
                  && t[i] != s[0] && t[i] != s[k] && t[i] != s[k + 1]
                  && t[i].next == if i + 1 < |t| then t[i + 1] else null)
  {
    hide Rotated;
    var t := RotatedAt(s, 1, k);
    RotatedDistinct(s, 1, k);
  }

  // ---- remove and undo

  /** s without its element k. */
  function Without<T>(s: seq<T>, k: nat): (t: seq<T>)
    requires k < |s|
    ensures |t| == |s| - 1
    ensures forall i {:trigger t[i]} | 0 <= i < |s| - 1 :: t[i] == if i < k then s[i] else s[i + 1]
  {
    s[..k] + s[k + 1..]
  }

  /** core_list_remove: swaps the items of the cell and the next one, and unlinks the latter. */
  method Remove(item: Cell, ghost list: Cell?, ghost s: seq<Cell>, ghost k: nat) returns (ret: Cell)
    requires IsList(list, s) && k + 1 < |s| && item == s[k]
    modifies s`next, s`info
    ensures ret == s[k + 1] && ret.next == null && IsList(list, Without(s, k + 1))
    ensures item.info == old(ret.info) && ret.info == old(item.info)
    ensures forall c | c in s && c != item && c != ret :: c.info == old(c.info)
  {
    ghost var t := Without(s, k + 1);
    hide Without;
    assert s[k + 1].next == if k + 2 < |s| then s[k + 2] else null;
    assert s[k].next == s[k + 1];
    assert forall i | 0 <= i < |s| && i != k && i != k + 1 :: s[i] != s[k] && s[i] != s[k + 1];
    ret := item.next;
    var tmp := item.info;
    item.info := ret.info;
    ret.info := tmp;
    item.next := item.next.next;
    ret.next := null;
    forall i {:trigger t[i].next} | 0 <= i < |t| ensures t[i].next == if i + 1 < |t| then t[i + 1] else null {
      assert i > k ==> t[i] == s[i + 1] && s[i + 1].next == old(s[i + 1].next);
      assert i < k ==> t[i] == s[i] && s[i].next == old(s[i].next);
    }
  }

  /** core_list_undo_remove: given the list left by Remove, the list it was called on. */
  method UndoRemove(removed: Cell, modified: Cell, ghost list: Cell?, ghost s: seq<Cell>, ghost k: nat)
    requires NoRepeats(s) && k + 1 < |s| && modified == s[k] && removed == s[k + 1] && IsList(list, Without(s, k + 1))
    modifies s`next, s`info
    ensures IsList(list, s)
    ensures modified.info == old(removed.info) && removed.info == old(modified.info)
    ensures forall c | c in s && c != modified && c != removed :: c.info == old(c.info)
  {
    ghost var t := Without(s, k + 1);
    hide Without;
    assert t[k] == s[k];
    assert t[k].next == if k + 2 < |s| then s[k + 2] else null by { assert k + 2 < |s| ==> t[k + 1] == s[k + 2]; }
    assert forall i | 0 <= i < |s| && i != k && i != k + 1 :: s[i] != s[k] && s[i] != s[k + 1];
    forall i {:trigger s[i].next} | 0 <= i < |s| && i != k && i != k + 1
      ensures s[i].next == if i + 1 < |s| then s[i + 1] else null
    {
      var j := if i < k then i else i - 1;
      assert t[j] == s[i] && t[j].next == if j + 1 < |t| then t[j + 1] else null;
    }
    var tmp := removed.info;
    removed.info := modified.info;
    modified.info := tmp;
    removed.next := modified.next;
    modified.next := removed;
    assert list == s[0];
  }

  // ---- the benchmark

  /** The order of the cells after one round that found `found`, or nothing. */
  ghost function AfterRound(s: seq<Cell>, found: Cell?): (t: seq<Cell>)
    ensures |t| == |s|
  {
    var r := Reversed(s);
    if found in r && Position(r, found) + 1 < |r| then Rotated(r, 1, Position(r, found)) else r
  }

  ghost function Position(s: seq<Cell>, c: Cell): (k: nat)
    requires c in s
    ensures k < |s| && s[k] == c
  {
    var k :| 0 <= k < |s| && s[k] == c;
    k
  }

  lemma AfterRoundMultiset(s: seq<Cell>, found: Cell?)
    ensures multiset(AfterRound(s, found)) == multiset(s)
    ensures forall i | 0 <= i < |s| :: AfterRound(s, found)[i] in s
  {
    hide Reversed, Rotated;
    var r := Reversed(s);
    ReversedMultiset(s);
    if found in r && Position(r, found) + 1 < |r| { RotatedMultiset(r, 1, Position(r, found)); }
    SameMembers(AfterRound(s, found), s);
  }

  /** A round that found nothing reverses the list; one that found the cell at k also moves the cell
      that was before it, and so is behind it now, to behind the head. */
  lemma AfterRoundIs(s: seq<Cell>, found: Cell?, k: nat)
    requires NoRepeats(s) && (found != null ==> k < |s| && s[k] == found)
    ensures found == null ==> forall i {:trigger AfterRound(s, found)[i]} | 0 <= i < |s| ::
              AfterRound(s, found)[i] == s[|s| - 1 - i]
    ensures found != null && k == 0 ==> forall i {:trigger AfterRound(s, found)[i]} | 0 <= i < |s| ::
              AfterRound(s, found)[i] == s[|s| - 1 - i]
    ensures found != null && k > 0 ==> forall i {:trigger AfterRound(s, found)[i]} | 0 <= i < |s| ::
              AfterRound(s, found)[i] ==
              if i == 1 then s[k - 1] else if 1 < i <= |s| - k then s[|s| - i] else s[|s| - 1 - i]
  {
    hide Reversed, Rotated;
    var r := Reversed(s);
    if found != null {
      assert r[|s| - 1 - k] == found;
      if k > 0 { var t := RotatedAt(r, 1, |s| - 1 - k); }
    }
  }

  lemma ReversedMembers<T>(s: seq<T>)
    ensures forall c :: c in Reversed(s) <==> c in s
  {
    ReversedMultiset(s);
    assert forall c :: c in Reversed(s) <==> c in multiset(s);
  }

  /** Of each cell: the data and the idx of its item. */
  type Contents = map<Cell, (U16, S16)>

  ghost function ContentsOf(cells: set<Cell>): Contents
    reads cells`info, (set c | c in cells :: c.info)`data16, (set c | c in cells :: c.info)`idx
  {
    map c | c in cells :: (c.info.data16, c.info.idx)
  }

  predicate Hit(v: (U16, S16), idx: S16, data16: U16) {
    if idx >= 0 then v.1 == idx else v.0 % 256 == data16
  }

  /** found is the first cell of s that matches, or null if none does. */
  ghost predicate FirstHit(at: Contents, s: seq<Cell>, found: Cell?, idx: S16, data16: U16) {
    && (forall c | c in s :: c in at)
    && if found == null then forall i | 0 <= i < |s| :: !Hit(at[s[i]], idx, data16)
       else
         exists k ::
           0 <= k < |s| && s[k] == found && Hit(at[found], idx, data16) &&
           forall i | 0 <= i < k :: !Hit(at[s[i]], idx, data16)
  }

  /** The bit that a round adds: bit 8 of the data of the second cell when nothing was found, and bit
      9 of odd data found. */
  ghost function Bit(at: Contents, t: seq<Cell>, found: Cell?): int
    requires |t| >= 2 && t[1] in at && (found != null ==> found in at)
  {
    if found == null then at[t[1]].0 / 256 % 2
    else if at[found].0 % 2 == 1 then at[found].0 / 512 % 2 else 0
  }

  lemma ContentsAt(cells: set<Cell>, c: Cell)
    requires c in cells
    ensures c in ContentsOf(cells) && ContentsOf(cells)[c] == (c.info.data16, c.info.idx)
  {
  }

  lemma FoundIs(cells: set<Cell>, s: seq<Cell>, found: Cell?, idx: S16, data16: U16)
    requires forall c | c in s :: c in cells
    requires found == null ==> forall i | 0 <= i < |s| :: !Matches(s[i], idx, data16)
    requires found != null ==>
               exists k ::
                 && 0 <= k < |s| && s[k] == found && Matches(found, idx, data16)
                 && forall i | 0 <= i < k :: !Matches(s[i], idx, data16)
    ensures FirstHit(ContentsOf(cells), s, found, idx, data16) && (found != null ==> found in s)
  {
    forall c | c in s
      ensures c in ContentsOf(cells) && Hit(ContentsOf(cells)[c], idx, data16) == Matches(c, idx, data16)
    {
      ContentsAt(cells, c);
    }
    hide Hit, Matches, ContentsOf;
  }

  /** What is added to retval. */
  method RoundBit(list: Cell, this_find: Cell?, ghost t: seq<Cell>, ghost cells: set<Cell>) returns (bit: U16)
    requires IsList(list, t) && |t| >= 2 && t[1] in cells && (this_find != null ==> this_find in cells)
    ensures t[1] in ContentsOf(cells) && (this_find != null ==> this_find in ContentsOf(cells))
    ensures bit == Bit(ContentsOf(cells), t, this_find) <= 1
  {
    if this_find == null {
      ContentsAt(cells, t[1]);
      bit := list.next.info.data16 / 256 % 2;
    } else {
      ContentsAt(cells, t[1]);
      ContentsAt(cells, this_find);
      bit := if this_find.info.data16 % 2 == 1 then this_find.info.data16 / 512 % 2 else 0;
    }
  }

  /** The cell behind the one found, if any, goes behind the head. */
  method CacheNext(list: Cell, this_find: Cell, ghost s: seq<Cell>)
    requires IsList(list, Reversed(s)) && |s| >= 2 && this_find in s
    modifies s`next
    ensures IsList(list, AfterRound(s, this_find))
  {
    hide Reversed, Rotated;
    ghost var r := Reversed(s);
    ReversedMembers(s);
    ghost var k := Position(r, this_find);
    assert r[k].next == if k + 1 < |r| then r[k + 1] else null;
    if this_find.next != null { MoveBehindHead(list, this_find, r, k); }
  }

  lemma NothingFound(s: seq<Cell>)
    ensures AfterRound(s, null) == Reversed(s)
  {
    hide Reversed;
  }

  lemma RoundCells(s: seq<Cell>, found: Cell?, cells: set<Cell>)
    requires |s| >= 2 && forall c | c in s :: c in cells
    ensures |AfterRound(s, found)| == |Reversed(s)| == |s|
    ensures AfterRound(s, found)[1] in cells && Reversed(s)[1] in cells
    ensures AfterRound(s, found)[1] in ContentsOf(cells) && Reversed(s)[1] in ContentsOf(cells)
  {
    hide Reversed, AfterRound;
    ReversedMembers(s);
    AfterRoundMultiset(s, found);
  }

  /** One round of the first loop: look for an item, reverse the list, and if the item
      was found move the cell behind it to behind the head. */
  method FindRound(list0: Cell, idx: S16, data16: U16, ghost s: seq<Cell>, ghost cells: set<Cell>)
    returns (list: Cell, this_find: Cell?, bit: U16)
    requires IsList(list0, s) && |s| >= 2 && forall c | c in s :: c in cells
    modifies s`next
    ensures var t := AfterRound(s, this_find);
            && IsList(list, t) && t[1] in ContentsOf(cells) && (this_find != null ==> this_find in ContentsOf(cells))
            && bit == Bit(ContentsOf(cells), t, this_find) <= 1
    ensures NoRepeats(s) && FirstHit(ContentsOf(cells), s, this_find, idx, data16)
  {
    hide Reversed, AfterRound, Matches, FirstHit, ContentsOf, IsList;
    this_find := Find(list0, idx, data16, s);
    FoundIs(cells, s, this_find, idx, data16);
    Distinct(list0, s);
    RoundCells(s, this_find, cells);
    var l := Reverse(list0, s);
    HeadOf(l, Reversed(s));
    list := l;
    bit := RoundBit(list, this_find, Reversed(s), cells);
    if this_find == null { NothingFound(s); } else { CacheNext(list, this_find, s); }
  }

  lemma Distinct(head: Cell?, s: seq<Cell>)
    requires IsList(head, s)
    ensures NoRepeats(s)
  {
  }

  lemma HeadOf(head: Cell?, s: seq<Cell>)
    requires IsList(head, s) && s != []
    ensures head != null && head == s[0]
  {
  }

  /** The cells of s and their items. */
  ghost predicate Owns(s: seq<Cell>, cells: set<Cell>, infos: set<Info>)
    reads cells`info
  {
    (forall i | 0 <= i < |s| :: s[i] in cells) && (forall c | c in cells :: c in s && c.info in infos)
  }

  /** Of each cell: its item, with idx and backup byte. */
  ghost function Backups(cells: set<Cell>): map<Cell, (Info, int, int)>
    reads cells`info, (set c | c in cells :: c.info)`data16, (set c | c in cells :: c.info)`idx
  {
    map c | c in cells :: (c.info, c.info.idx as int, c.info.High())
  }

  lemma OwnsSame(s: seq<Cell>, t: seq<Cell>, cells: set<Cell>, infos: set<Info>)
    requires Owns(s, cells, infos) && multiset(s) == multiset(t)
    ensures Owns(t, cells, infos)
  {
    SameMembers(s, t);
    SameMembers(t, s);
  }

  lemma SameMembers<T>(s: seq<T>, t: seq<T>)
    requires multiset(s) == multiset(t)
    ensures forall i | 0 <= i < |s| :: s[i] in t
  {
    forall i | 0 <= i < |s| ensures s[i] in t {
      assert s[i] in multiset(s);
      assert s[i] in multiset(t);
    }
  }

  /** The course of the first loop: the order of the cells before each round and at the end, what each
      round found, and the sum of its points: a bit each, four for an item found, minus one for
      none. */
  datatype Course = Course(orders: seq<seq<Cell>>, finds: seq<Cell?>, sums: seq<int>)

  /** The idx looked for in round i. */
  function IdxAt(finder_idx: S16, i: nat): S16 {
    if finder_idx < 0 then finder_idx else if finder_idx + i <= 0x7fff then finder_idx + i else -0x8000
  }

  ghost predicate RoundIs(at: Contents, s: seq<Cell>, found: Cell?, t: seq<Cell>, sum: int, sum': int, idx: S16,
                          data16: U16) {
    && NoRepeats(s) && t == AfterRound(s, found) && |t| >= 2 && t[1] in at && (found != null ==> found in at)
    && FirstHit(at, s, found, idx, data16)
    && sum' == sum + Bit(at, t, found) + if found == null then -1 else 4
  }

  ghost predicate Searched(r: Course, at: Contents, s: seq<Cell>, finder_idx: S16) {
    && |r.orders| == |r.sums| == |r.finds| + 1 && r.orders[0] == s && r.sums[0] == 0
    && forall i {:trigger r.finds[i]} | 0 <= i < |r.finds| ::
         RoundIs(at, r.orders[i], r.finds[i], r.orders[i + 1], r.sums[i], r.sums[i + 1], IdxAt(finder_idx, i), i % 256)
  }

  function Longer(r: Course, found: Cell?, t: seq<Cell>, sum: int): Course {
    Course(r.orders + [t], r.finds + [found], r.sums + [sum])
  }

  lemma SearchedMore(r: Course, at: Contents, s: seq<Cell>, finder_idx: S16, found: Cell?, t: seq<Cell>, sum: int)
    requires Searched(r, at, s, finder_idx)
    requires var n := |r.finds|;
             RoundIs(at, r.orders[n], found, t, r.sums[n], sum, IdxAt(finder_idx, n), n % 256)
    ensures Searched(Longer(r, found, t, sum), at, s, finder_idx)
  {
    hide RoundIs, IdxAt;
    var r' := Longer(r, found, t, sum);
    forall i {:trigger r'.finds[i]} | 0 <= i < |r'.finds|
      ensures RoundIs(at, r'.orders[i], r'.finds[i], r'.orders[i + 1], r'.sums[i], r'.sums[i + 1],
                      IdxAt(finder_idx, i), i % 256)
    {
      if i < |r.finds| { assert r'.finds[i] == r.finds[i] && r'.orders[i + 1] == r.orders[i + 1]; }
    }
  }

  lemma SearchedStart(at: Contents, s: seq<Cell>, finder_idx: S16)
    ensures Searched(Course([s], [], [0]), at, s, finder_idx)
  {
  }

  lemma OwnedCells(s: seq<Cell>, cells: set<Cell>, infos: set<Info>)
    requires Owns(s, cells, infos)
    ensures forall c | c in s :: c in cells
  {
  }

  /** The first loop.  Only the order of the cells changes. */
  method FindRounds(list0: Cell, find_num: S16, finder_idx: S16, ghost s0: seq<Cell>, ghost cells: set<Cell>,
                    ghost infos: set<Info>)
    returns (list: Cell, idx: S16, data16: U16, retval: U16, ghost s: seq<Cell>, ghost r: Course)
    requires IsList(list0, s0) && |s0| >= 2 && Owns(s0, cells, infos)
    modifies cells`next
    ensures IsList(list, s) && multiset(s) == multiset(s0)
    ensures Owns(s, cells, infos) && Backups(cells) == old(Backups(cells))
    ensures Searched(r, ContentsOf(cells), s0, finder_idx) && |r.finds| == Max(find_num, 0)
    ensures s == r.orders[|r.finds|] && retval == r.sums[|r.finds|] % 0x1_0000
    ensures idx == IdxAt(finder_idx, |r.finds|) && (find_num > 0 ==> data16 == (find_num - 1) % 256)
  {
    hide IsList, AfterRound, Bit, FirstHit, Searched, ContentsOf, Owns;
    list, idx, data16, s := list0, finder_idx, *, s0;
    r := Course([s0], [], [0]);
    SearchedStart(ContentsOf(cells), s0, finder_idx);
    var i, bits, found, missed := 0, 0, 0, 0;
    while i < find_num
      invariant 0 <= i && found + missed == i && 0 <= bits <= i && 0 <= found && 0 <= missed
      invariant i <= Max(find_num, 0)
      invariant IsList(list, s) && multiset(s) == multiset(s0)
      invariant Owns(s, cells, infos)
      invariant Searched(r, ContentsOf(cells), s0, finder_idx) && |r.orders| == |r.sums| == |r.finds| + 1 == i + 1
      invariant s == r.orders[i] && r.sums[i] == bits + 4 * found - missed
      invariant idx == IdxAt(finder_idx, i) && (i > 0 ==> data16 == (i - 1) % 256)
      decreases find_num - i
    {
      data16 := i % 256;
      var this_find, bit;
      OwnedCells(s, cells, infos);
      SameLength(s, s0);
      list, this_find, bit := FindRound(list, idx, data16, s, cells);
      if this_find == null { missed := missed + 1; } else { found := found + 1; }
      bits := bits + bit;
      AfterRoundMultiset(s, this_find);
      OwnsSame(s, AfterRound(s, this_find), cells, infos);
      SearchedMore(r, ContentsOf(cells), s0, finder_idx, this_find, AfterRound(s, this_find),
                   bits + 4 * found - missed);
      s := AfterRound(s, this_find);
      r := Longer(r, this_find, s, bits + 4 * found - missed);
      if idx >= 0 { idx := if idx == 0x7fff then -0x8000 else idx + 1; }
      i := i + 1;
    }
    retval := (bits + found * 4 - missed) % 0x1_0000;
  }

  function Max(a: int, b: int): int { if a < b then b else a }

  /** The sort, with its keys read off the list. */
  method SortCells(head: Cell, cmp: Cmp, ghost s: seq<Cell>, ghost cells: set<Cell>, ghost infos: set<Info>)
    returns (list: Cell, ghost t: seq<Cell>, ghost key: Cell -> int)
    requires IsList(head, s) && cmp != Anything && Owns(s, cells, infos) && Accounted(cmp, Items(cells))
    modifies cells, infos, Touched(cmp)
    ensures IsList(list, t) && multiset(t) == multiset(s) && s != [] && Owns(t, cells, infos)
    ensures (forall c | c in cells :: key(c) == old(KeyOf(cmp, c.info)) == KeyOf(cmp, c.info)) && t == MergeSort(s, key)
    ensures Backups(cells) == old(Backups(cells))
    ensures cmp == ByIdx(true) && |s| > 1 ==> forall c | c in cells :: Regenerated(c.info)
    ensures Accounted(cmp, Items(cells)) && (cmp.ByData? ==> cmp.res.start == old(cmp.res.start))
    ensures cmp.ByData? && |s| > 1 ==> forall c | c in cells :: Cached(c.info)
  {
    hide Accounted, Cached, Regenerated, Backups, Owns, KeyOf;
    ghost var keys := map c | c in cells :: KeyOf(cmp, c.info);
    key := (c: Cell) => if c in keys then keys[c] else 0;
    ghost var seen;
    OwnedItems(s, cells, infos);
    assert Sound(cmp, key, s, {}, cells, infos);
    ghost var wiring, facts := Wiring(cells), Facts(cmp, infos);
    BackupsFacts(cmp, cells, infos);
    list, t, seen := Mergesort(head, cmp, s, key, cells, infos);
    assert Wiring(cells) == wiring && Facts(cmp, infos) == facts;
    BackupsFacts(cmp, cells, infos);
    OwnsAgain(s, t, cells, infos);
  }

  lemma OwnedItems(s: seq<Cell>, cells: set<Cell>, infos: set<Info>)
    requires Owns(s, cells, infos)
    ensures (forall i | 0 <= i < |s| :: s[i] in cells) && forall c | c in cells :: c in s && c.info in infos
  {
  }

  lemma BackupsFacts(cmp: Cmp, cells: set<Cell>, infos: set<Info>)
    requires forall c | c in cells :: c.info in infos
    ensures var w, f := Wiring(cells), Facts(cmp, infos);
            && (forall c | c in w :: w[c] in f)
            && Backups(cells) == (map c | c in w :: (w[c], f[w[c]].0, f[w[c]].1))
            && forall c | c in cells :: KeyOf(cmp, c.info) == f[w[c]].2
  {
    hide KeyOf;
  }

  lemma OwnsAgain(s: seq<Cell>, t: seq<Cell>, cells: set<Cell>, infos: set<Info>)
    requires multiset(s) == multiset(t) && forall i | 0 <= i < |s| :: s[i] in cells
    requires forall c | c in cells :: c in s && c.info in infos
    ensures Owns(t, cells, infos) && |s| == |t| && forall c :: c in s <==> c in t
  {
    SameMembers(s, t);
    SameMembers(t, s);
    SameCells(s, t);
  }

  /** The operations ahead and the fields of the results. */
  ghost function Before(cells: set<Cell>, bench: Info -> S16, res: Results): Start
    reads cells`info, (set c | c in cells :: c.info)`data16, res`crc, res`crcstate, res`crcmatrix
  {
    Start(Pending(Items(cells), bench), res.crc, res.crcstate, res.crcmatrix)
  }

  /** A new log. */
  ghost method OpenLog(bench: Info -> S16, res: Results, cells: set<Cell>)
    modifies res`start, res`log
    ensures Settled(res) && Account(Items(cells), bench, res.log, res.start.todo)
    ensures res.start == old(Before(cells, bench, res))
  {
    res.start := Before(cells, bench, res);
    res.log := [];
  }

  lemma SameCells(s: seq<Cell>, t: seq<Cell>)
    requires multiset(s) == multiset(t)
    ensures |s| == |t| && forall c :: c in s <==> c in t
  {
    assert |s| == |multiset(s)| == |t|;
    assert forall c :: c in s <==> c in multiset(s);
    assert forall c :: c in t <==> c in multiset(t);
  }

  /** A checksum run over the same word n times. */
  function Again(x: U16, n: nat, crc: bv16): bv16 {
    if n == 0 then crc else Crc16.Crc(Crc16.Bits(Word(x)), Again(x, n - 1, crc))
  }

  /** From the cell given to the end of the list, each time with the data of the head. */
  method Walk(list: Cell, start: Cell?, retval0: bv16, ghost t: seq<Cell>, ghost from: nat) returns (retval: bv16)
    requires IsList(list, t) && from <= |t| && start == if from < |t| then t[from] else null
    ensures retval == Again(list.info.data16, |t| - from, retval0)
  {
    hide Crc16.Crc, Crc16.Bits, Word;
    var finder: Cell? := start;
    ghost var k := from;
    retval := retval0;
    while finder != null
      invariant from <= k <= |t| && finder == if k < |t| then t[k] else null
      invariant retval == Again(list.info.data16, k - from, retval0)
      decreases |t| - k
    {
      retval := Crc16.CrcU16(Word(list.info.data16), retval);
      finder := finder.next;
      k := k + 1;
    }
  }

  lemma FirstCells(list: Cell, s: seq<Cell>)
    requires IsList(list, s) && |s| >= 2
    ensures NoRepeats(s) && list == s[0] && list.next == s[1]
  {
  }

  /** The search in the middle: the item found, or else the second one. */
  method FindOrSecond(list: Cell, idx: S16, data16: U16, ghost t: seq<Cell>, ghost cells: set<Cell>)
    returns (finder: Cell, ghost k: nat)
    requires IsList(list, t) && |t| >= 2 && forall c | c in t :: c in cells
    ensures k < |t| && finder == t[k] && forall c | c in t :: c in ContentsOf(cells)
    ensures FromHit(ContentsOf(cells), t, k, idx, data16)
  {
    hide Matches, ContentsOf;
    FirstCells(list, t);
    var f := Find(list, idx, data16, t);
    FoundIs(cells, t, f, idx, data16);
    if f == null {
      finder, k := list.next, 1;
    } else {
      k :| 0 <= k < |t| && t[k] == f && Hit(ContentsOf(cells)[f], idx, data16) &&
        forall i | 0 <= i < k :: !Hit(ContentsOf(cells)[t[i]], idx, data16);
      finder := f;
    }
  }

  /** The cell at k is the first that matches, or the second if none does. */
  ghost predicate FromHit(at: Contents, t: seq<Cell>, k: nat, idx: S16, data16: U16)
    requires forall c | c in t :: c in at
  {
    && k < |t|
    && (forall i | 0 <= i < k :: !Hit(at[t[i]], idx, data16))
    && (!Hit(at[t[k]], idx, data16) ==> k == 1 && forall i | 0 <= i < |t| :: !Hit(at[t[i]], idx, data16))
  }

  /** The item removed is that of the second cell: item j of the shortened list was item Kept(j). */
  function Left(j: nat): nat { if j == 0 then 0 else j + 1 }

  /** The same for the list as it was before the removal. */
  ghost predicate ShortHit(at: Contents, s: seq<Cell>, k: nat, idx: S16, data16: U16)
    requires forall c | c in s :: c in at
  {
    && k < |s| - 1
    && (forall i: nat | i < k :: !Hit(at[s[Left(i)]], idx, data16))
    && (!Hit(at[s[Left(k)]], idx, data16) ==>
          k == 1 && forall i: nat | i < |s| - 1 :: !Hit(at[s[Left(i)]], idx, data16))
  }

  lemma ShortIs(at': Contents, t: seq<Cell>, at: Contents, s: seq<Cell>, k: nat, idx: S16, data16: U16)
    requires (forall c | c in t :: c in at') && (forall c | c in s :: c in at) && |t| == |s| - 1
    requires FromHit(at', t, k, idx, data16) && forall j: nat | j < |t| :: at'[t[j]] == at[s[Left(j)]]
    ensures ShortHit(at, s, k, idx, data16)
  {
    hide Hit, Left;
    forall j: nat | j < |t| ensures Left(j) < |s| { LeftBound(j, |s|); }
    forall i: nat | i < |t| ensures Hit(at'[t[i]], idx, data16) == Hit(at[s[Left(i)]], idx, data16) {}
  }

  lemma LeftBound(j: nat, n: nat)
    requires j < n - 1
    ensures Left(j) < n
  {
  }

  /** The item of the second cell is taken out. */
  method TakeOut(list: Cell, ghost s: seq<Cell>, ghost cells: set<Cell>) returns (remover: Cell)
    requires IsList(list, s) && |s| >= 3 && forall c | c in s :: c in cells
    modifies s`next, s`info
    ensures remover == s[2] && IsList(list, Without(s, 2))
    ensures s[1].info == old(s[2].info) && s[2].info == old(s[1].info)
    ensures forall c | c in s && c != s[1] && c != s[2] :: c.info == old(c.info)
    ensures forall j: nat | j < |s| - 1 :: Left(j) < |s| && Without(s, 2)[j].info == old(s[Left(j)].info)
  {
    hide Without, IsList, NoRepeats;
    FirstCells(list, s);
    ghost var t := Without(s, 2);
    remover := Remove(list.next, list, s, 1);
    forall j: nat | j < |s| - 1 ensures t[j].info == old(s[Left(j)].info) {
      if j != 1 { OtherCell(s, Left(j)); }
    }
  }

  lemma OtherCell(s: seq<Cell>, i: nat)
    requires NoRepeats(s) && i < |s| && i != 1 && i != 2 && |s| >= 3
    ensures s[i] != s[1] && s[i] != s[2]
  {
  }

  /** The walk over the shortened list. */
  method WalkFrom(list: Cell, idx: S16, data16: U16, retval0: bv16, ghost t: seq<Cell>, ghost cells: set<Cell>)
    returns (retval: bv16, ghost k: nat)
    requires IsList(list, t) && |t| >= 2 && forall c | c in t :: c in cells
    ensures (forall c | c in t :: c in ContentsOf(cells)) && FromHit(ContentsOf(cells), t, k, idx, data16)
    ensures k < |t| && retval == Again(list.info.data16, |t| - k, retval0)
  {
    hide ContentsOf, FromHit, Again;
    var finder;
    finder, k := FindOrSecond(list, idx, data16, t, cells);
    retval := Walk(list, finder, retval0, t, k);
  }

  lemma ShortContents(cells: set<Cell>, at: Contents, at': Contents, s: seq<Cell>, t: seq<Cell>, infos: seq<Info>)
    requires (forall c | c in s :: c in at) && |infos| == |s| == |t| + 1 && at' == ContentsOf(cells)
    requires forall i | 0 <= i < |s| :: at[s[i]] == (infos[i].data16, infos[i].idx)
    requires forall j: nat | j < |t| :: t[j] in cells && Left(j) < |s| && t[j].info == infos[Left(j)]
    ensures forall j: nat | j < |t| :: t[j] in at' && at'[t[j]] == at[s[Left(j)]]
  {
    hide Left;
  }

  lemma AllContents(cells: set<Cell>, s: seq<Cell>, infos: seq<Info>)
    requires (forall c | c in s :: c in cells) && |infos| == |s| && forall i | 0 <= i < |s| :: infos[i] == s[i].info
    ensures forall c | c in s :: c in ContentsOf(cells)
    ensures forall i | 0 <= i < |s| :: ContentsOf(cells)[s[i]] == (infos[i].data16, infos[i].idx)
  {
  }

  /** What the cells hold, by which item each has. */
  ghost function Held(wiring: map<Cell, Info>): map<Cell, (Info, U16, S16)>
    reads (set c | c in wiring :: wiring[c])`data16, (set c | c in wiring :: wiring[c])`idx
  {
    map c | c in wiring :: (wiring[c], wiring[c].data16, wiring[c].idx)
  }

  function BackupsBy(held: map<Cell, (Info, U16, S16)>): map<Cell, (Info, int, int)> {
    map c | c in held :: (held[c].0, held[c].2 as int, held[c].1 / 256)
  }

  function ContentsBy(held: map<Cell, (Info, U16, S16)>): Contents {
    map c | c in held :: (held[c].1, held[c].2)
  }

  lemma HeldIs(cells: set<Cell>)
    ensures Backups(cells) == BackupsBy(Held(Wiring(cells))) && ContentsOf(cells) == ContentsBy(Held(Wiring(cells)))
  {
  }

  /** Take an item out, and walk the shortened list from the item found (or from the second cell). */
  method TakeAndWalk(list: Cell, idx: S16, data16: U16, retval0: bv16, ghost s: seq<Cell>, ghost cells: set<Cell>)
    returns (remover: Cell, retval: bv16, ghost k: nat)
    requires IsList(list, s) && |s| >= 3 && forall c | c in s :: c in cells
    modifies s`next, s`info
    ensures remover == s[2] && IsList(list, Without(s, 2)) && NoRepeats(s) && list == s[0] && list.next == s[1]
    ensures s[1].info == old(s[2].info) && s[2].info == old(s[1].info)
    ensures forall c | c in s && c != s[1] && c != s[2] :: c.info == old(c.info)
    ensures k < |s| - 1 && retval == Again(old(s[0].info).data16, |s| - 1 - k, retval0)
    ensures (forall c | c in s :: c in old(ContentsOf(cells))) && ShortHit(old(ContentsOf(cells)), s, k, idx, data16)
  {
    hide Without, IsList, NoRepeats, FromHit, ShortHit, ContentsOf, Again, Left;
    FirstCells(list, s);
    ghost var at, t, items := ContentsOf(cells), Without(s, 2), seq(|s|, i requires 0 <= i < |s| reads s => s[i].info);
    AllContents(cells, s, items);
    remover := TakeOut(list, s, cells);
    assert t[0] == s[0] && t[1] == s[1];
    FirstCells(list, t);
    retval, k := WalkFrom(list, idx, data16, retval0, t, cells);
    OtherCell(s, 0);
    ShortContents(cells, at, ContentsOf(cells), s, t, items);
    ShortIs(ContentsOf(cells), t, at, s, k, idx, data16);
  }

  /** The middle of the benchmark: the item taken out is put back after the walk. */
  method RemoveAndRestore(list: Cell, idx: S16, data16: U16, retval0: bv16, ghost s: seq<Cell>, ghost cells: set<Cell>,
                          ghost infos: set<Info>)
    returns (retval: bv16, ghost k: nat)
    requires IsList(list, s) && |s| >= 3 && Owns(s, cells, infos)
    modifies cells`next, cells`info
    ensures IsList(list, s) && Owns(s, cells, infos) && Backups(cells) == old(Backups(cells))
    ensures k < |s| - 1 && retval == Again(s[0].info.data16, |s| - 1 - k, retval0)
    ensures (forall c | c in s :: c in ContentsOf(cells)) && ShortHit(ContentsOf(cells), s, k, idx, data16)
    ensures ContentsOf(cells) == old(ContentsOf(cells))
  {
    hide Without, IsList, NoRepeats, ShortHit, ContentsOf, Again, Backups, BackupsBy, ContentsBy, Held;
    OwnedCells(s, cells, infos);
    HeldIs(cells);
    ghost var at, wiring, held := ContentsOf(cells), Wiring(cells), Held(Wiring(cells));
    var remover;
    remover, retval, k := TakeAndWalk(list, idx, data16, retval0, s, cells);
    UndoRemove(remover, list.next, list, s, 1);
    assert forall c | c in cells :: c.info == old(c.info);
    assert Wiring(cells) == wiring && Held(wiring) == held;
    HeldIs(cells);
    assert ContentsOf(cells) == at;
  }

  /** The log is that of all operations that were ahead. */
  ghost predicate Complete(res: Results)
    reads res
  {
    && Settled(res) && (set d | d in res.log) == res.start.todo
    && forall i, j | 0 <= i < j < |res.log| :: res.log[i].info != res.log[j].info
  }

  lemma AllCached(cells: set<Cell>, bench: Info -> S16, res: Results)
    requires Settled(res) && Account(Items(cells), bench, res.log, res.start.todo)
    requires forall c | c in cells :: Cached(c.info)
    ensures Complete(res)
  {
    hide Settled, Cached;
    assert Pending(Items(cells), bench) == {};
  }

  /** What a cached item holds. */
  lemma CachedData(info: Info, bench: Info -> S16)
    requires Cached(info)
    ensures info.data16 == 256 * info.High() + 128 + Value(info, bench)
  {
  }

  /** The sort by data: all operations that are ahead are carried out, and the items hold their
      results. */
  method SortByData(head: Cell, bench: Info -> S16, res: Results, ghost s: seq<Cell>, ghost cells: set<Cell>,
                    ghost infos: set<Info>)
    returns (list: Cell, ghost t: seq<Cell>, ghost key: Cell -> int)
    requires IsList(head, s) && |s| > 1 && Owns(s, cells, infos)
    modifies cells, infos, res
    ensures IsList(list, t) && multiset(t) == multiset(s) && Owns(t, cells, infos)
    ensures Backups(cells) == old(Backups(cells))
    ensures Complete(res) && res.start == old(Before(cells, bench, res))
    ensures s != [] && t == MergeSort(s, key)
    ensures forall c | c in cells ::
              key(c) == old(Value(c.info, bench)) && c.info.data16 == 256 * c.info.High() + 128 + key(c)
  {
    hide IsList, MergeSort, Backups, Owns, Settled, Account, Cached, Value;
    OpenLog(bench, res, cells);
    list, t, key := SortCells(head, ByData(bench, res), s, cells, infos);
    AllCached(cells, bench, res);
    forall c | c in cells ensures c.info.data16 == 256 * c.info.High() + 128 + key(c) { CachedData(c.info, bench); }
  }

  /** The middle of the benchmark: the order of the cells, what they hold, the low byte searched for, and
      the place in the shortened list from which it is walked. */
  datatype Middle = Middle(order: seq<Cell>, at: Contents, low: U16, from: nat)

  /** What the first sort makes of the cells: with finder_idx above zero, in the order of the
      results and with the results in them. */
  ghost predicate Rearranged(finder_idx: S16, key: Cell -> int, s: seq<Cell>, at: Contents, m: Middle) {
    && s != [] && m.order == (if finder_idx > 0 then MergeSort(s, key) else s)
    && m.at.Keys == at.Keys
    && forall c | c in at ::
         m.at[c] == if finder_idx > 0 then (at[c].0 / 256 * 256 + 128 + key(c), at[c].1) else at[c]
  }

  lemma ContentsBackups(cells: set<Cell>)
    ensures ContentsOf(cells).Keys == Backups(cells).Keys == cells
    ensures forall c | c in cells ::
              ContentsOf(cells)[c].1 == Backups(cells)[c].1 && ContentsOf(cells)[c].0 / 256 == Backups(cells)[c].2
  {
  }

  lemma ResultsHeld(cells: set<Cell>, key: Cell -> int, at: Contents, s: seq<Cell>, m: Middle)
    requires forall c | c in cells :: c.info.data16 == 256 * c.info.High() + 128 + key(c)
    requires at.Keys == cells && s != [] && m.order == MergeSort(s, key) && m.at == ContentsOf(cells)
    requires forall c | c in cells :: at[c].1 == Backups(cells)[c].1 && at[c].0 / 256 == Backups(cells)[c].2
    ensures Rearranged(1, key, s, at, m)
  {
    hide MergeSort;
  }

  lemma NothingSorted(key: Cell -> int, at: Contents, s: seq<Cell>, m: Middle)
    requires s != [] && m.order == s && m.at == at
    ensures Rearranged(0, key, s, at, m)
  {
  }

  lemma SortedOrNot(finder_idx: S16, f: S16, key: Cell -> int, s: seq<Cell>, at: Contents, m: Middle)
    requires Rearranged(f, key, s, at, m) && (f > 0 <==> finder_idx > 0)
    ensures Rearranged(finder_idx, key, s, at, m)
  {
    hide MergeSort;
  }

  /** The first sort, if it is asked for. */
  method FirstSort(head: Cell, finder_idx: S16, bench: Info -> S16, res: Results, ghost s: seq<Cell>,
                   ghost cells: set<Cell>, ghost infos: set<Info>, ghost at: Contents)
    returns (list: Cell, ghost m: Middle, ghost key: Cell -> int)
    requires IsList(head, s) && |s| > 1 && Owns(s, cells, infos) && at == ContentsOf(cells)
    modifies cells, infos, res
    ensures IsList(list, m.order) && multiset(m.order) == multiset(s) && Owns(m.order, cells, infos)
    ensures Backups(cells) == old(Backups(cells))
    ensures if finder_idx > 0 then Complete(res) && res.start == old(Before(cells, bench, res))
            else res.crc == old(res.crc) && res.crcstate == old(res.crcstate) && res.crcmatrix == old(res.crcmatrix)
    ensures m.at == ContentsOf(cells) && Rearranged(finder_idx, key, s, at, m)
    ensures finder_idx > 0 ==> forall c | c in cells :: key(c) == old(Value(c.info, bench))
  {
    hide IsList, MergeSort, Owns, Complete, Before, Value, Backups, ContentsOf, Rearranged;
    list, key := head, c => 0;
    ContentsBackups(cells);
    SomeCells(head, s);
    if finder_idx > 0 {
      ghost var t;
      list, t, key := SortByData(head, bench, res, s, cells, infos);
      m := Middle(t, ContentsOf(cells), 0, 0);
      ResultsHeld(cells, key, at, s, m);
      SortedOrNot(finder_idx, 1, key, s, at, m);
    } else {
      m := Middle(s, at, 0, 0);
      NothingSorted(key, at, s, m);
      SortedOrNot(finder_idx, 0, key, s, at, m);
    }
  }

  lemma SomeCells(head: Cell, s: seq<Cell>)
    requires IsList(head, s)
    ensures s != []
  {
  }

  /** The rounds, the first sort and the walk over the shortened list, and the checksum so far. */
  ghost predicate Toured(s: seq<Cell>, find_num: S16, finder_idx: S16, at: Contents, r: Course, m: Middle,
                         key: Cell -> int, middle: bv16) {
    && Searched(r, at, s, finder_idx) && |r.orders| == |r.sums| == |r.finds| + 1 && |r.finds| == Max(find_num, 0)
    && Rearranged(finder_idx, key, r.orders[|r.finds|], at, m)
    && (find_num > 0 ==> m.low == (find_num - 1) % 256) && (forall c | c in m.order :: c in m.at)
    && ShortHit(m.at, m.order, m.from, IdxAt(finder_idx, |r.finds|), m.low) && m.from < |s| - 1 < |m.order|
    && middle == Again(m.at[m.order[0]].0, |s| - 1 - m.from, Word(r.sums[|r.finds|] % 0x1_0000))
  }

  /** core_bench_list up to the last sort: the cells are in some other order. */
  method Shuffle(head: Cell, find_num: S16, finder_idx: S16, bench: Info -> S16, res: Results, ghost s: seq<Cell>,
                 ghost cells: set<Cell>, ghost infos: set<Info>)
    returns (list: Cell, retval: bv16, ghost r: Course, ghost m: Middle, ghost key: Cell -> int)
    requires IsList(head, s) && |s| >= 3 && Owns(s, cells, infos)
    modifies cells, infos, res
    ensures IsList(list, m.order) && multiset(m.order) == multiset(s) && Owns(m.order, cells, infos)
    ensures Backups(cells) == old(Backups(cells))
    ensures if finder_idx > 0 then Complete(res) && res.start == old(Before(cells, bench, res))
            else res.crc == old(res.crc) && res.crcstate == old(res.crcstate) && res.crcmatrix == old(res.crcmatrix)
    ensures finder_idx > 0 ==> forall c | c in cells :: key(c) == old(Value(c.info, bench))
    ensures Toured(s, find_num, finder_idx, old(ContentsOf(cells)), r, m, key, retval)
  {
    hide IsList, MergeSort, Backups, Owns, Complete, Before, Value, Searched, ContentsOf, Rearranged, ShortHit, Again,
         IdxAt;
    var idx, data16, points;
    ghost var t, from;
    list, idx, data16, points, t, r := FindRounds(head, find_num, finder_idx, s, cells, infos);
    SearchedSizes(r, ContentsOf(cells), s, finder_idx);
    SameLength(s, t);
    assert Before(cells, bench, res) == old(Before(cells, bench, res));
    list, m, key := FirstSort(list, finder_idx, bench, res, t, cells, infos, ContentsOf(cells));
    SameLength(s, m.order);
    retval, from := RemoveAndRestore(list, idx, data16, Word(points), m.order, cells, infos);
    OwnedCells(m.order, cells, infos);
    ContentsAt(cells, m.order[0]);
    Rest(finder_idx, key, t, old(ContentsOf(cells)), m, data16, from);
    m := m.(low := data16, from := from);
  }

  lemma Rest(finder_idx: S16, key: Cell -> int, s: seq<Cell>, at: Contents, m: Middle, low: U16, from: nat)
    requires Rearranged(finder_idx, key, s, at, m)
    ensures Rearranged(finder_idx, key, s, at, m.(low := low, from := from))
  {
    hide MergeSort;
  }

  lemma SearchedSizes(r: Course, at: Contents, s: seq<Cell>, finder_idx: S16)
    requires Searched(r, at, s, finder_idx)
    ensures |r.orders| == |r.sums| == |r.finds| + 1
  {
  }

  /** The backups are in strict order of idx along s. */
  ghost predicate InOrder(s: seq<Cell>, cells: set<Cell>, b: map<Cell, (Info, int, int)>) {
    && b.Keys == cells && (forall i | 0 <= i < |s| :: s[i] in cells)
    && forall i, j | 0 <= i < j < |s| :: b[s[i]].1 < b[s[j]].1
  }

  /** The last sort puts the cells back in their order, with their data. */
  method SortBack(head: Cell, ghost s: seq<Cell>, ghost t: seq<Cell>, ghost cells: set<Cell>, ghost infos: set<Info>)
    returns (list: Cell)
    requires IsList(head, t) && multiset(t) == multiset(s) && |t| > 1 && Owns(t, cells, infos)
    requires InOrder(s, cells, Backups(cells))
    modifies cells, infos
    ensures IsList(list, s) && Backups(cells) == old(Backups(cells))
    ensures forall c | c in cells :: Regenerated(c.info)
  {
    hide IsList, MergeSort, Backups, Owns, Settled, Account, Items, Cached, KeyOf, Regenerated;
    ghost var backups := Backups(cells);
    IdxOf(t, cells, infos, backups);
    ghost var u, key;
    list, u, key := SortCells(head, ByIdx(true), t, cells, infos);
    InOrderAgain(s, t, key, cells, backups);
  }

  /** The steps of core_bench_list, and what they come to. */
  method BenchSteps(head: Cell, find_num: S16, finder_idx: S16, bench: Info -> S16, res: Results,
                    ghost s: seq<Cell>, ghost cells: set<Cell>, ghost infos: set<Info>)
    returns (list: Cell, retval: bv16, ghost r: Course, ghost m: Middle, ghost key: Cell -> int, ghost middle: bv16)
    requires IsList(head, s) && |s| >= 3 && Owns(s, cells, infos)
    requires forall i, j | 0 <= i < j < |s| :: s[i].info.idx < s[j].info.idx
    modifies cells, infos, res
    ensures IsList(list, s) && Backups(cells) == old(Backups(cells))
    ensures forall c | c in cells :: Regenerated(c.info)
    ensures if finder_idx > 0 then Complete(res) && res.start == old(Before(cells, bench, res))
            else res.crc == old(res.crc) && res.crcstate == old(res.crcstate) && res.crcmatrix == old(res.crcmatrix)
    ensures finder_idx > 0 ==> forall c | c in cells :: key(c) == old(Value(c.info, bench))
    ensures Toured(s, find_num, finder_idx, old(ContentsOf(cells)), r, m, key, middle)
    ensures retval == Again(list.info.data16, |s| - 1, middle)
  {
    hide IsList, Backups, Owns, Complete, Before, Regenerated, Value, Toured, ContentsOf, Again, InOrder;
    InIdxOrder(s, cells, infos);
    list, retval, r, m, key := Shuffle(head, find_num, finder_idx, bench, res, s, cells, infos);
    SameLength(s, m.order);
    list := SortBack(list, s, m.order, cells, infos);
    FirstCells(list, s);
    middle := retval;
    retval := Walk(list, list.next, retval, s, 1);
  }

  lemma InIdxOrder(s: seq<Cell>, cells: set<Cell>, infos: set<Info>)
    requires Owns(s, cells, infos) && forall i, j | 0 <= i < j < |s| :: s[i].info.idx < s[j].info.idx
    ensures InOrder(s, cells, Backups(cells))
  {
  }

  lemma SameLength<T>(s: seq<T>, t: seq<T>)
    requires multiset(s) == multiset(t)
    ensures |s| == |t|
  {
    assert |s| == |multiset(s)| == |t|;
  }

  lemma IdxOf(s: seq<Cell>, cells: set<Cell>, infos: set<Info>, backups: map<Cell, (Info, int, int)>)
    requires Owns(s, cells, infos) && Backups(cells) == backups
    ensures forall c | c in cells :: c in backups && KeyOf(ByIdx(true), c.info) == backups[c].1
  {
  }

  lemma InOrderAgain(s: seq<Cell>, t: seq<Cell>, key: Cell -> int, cells: set<Cell>,
                     backups: map<Cell, (Info, int, int)>)
    requires multiset(t) == multiset(s) && t != [] && InOrder(s, cells, backups)
    requires forall c | c in cells :: key(c) == backups[c].1
    ensures MergeSort(t, key) == s
  {
    MergeSortSorts(t, key, 0);
    StrictOrderUnique(s, MergeSort(t, key), key);
  }

  // ---- what the course of the benchmark is

  /** The checksum of the word n times over is that of the message of n copies of its bits. */
  lemma {:induction false} AgainIs(x: U16, n: nat, crc: bv16) returns (bits: seq<bool>)
    ensures |bits| == 16 * n && Again(x, n, crc) == Crc16.Crc(bits, crc)
    ensures forall p | 0 <= p < 16 * n :: bits[p] == Crc16.Bits(Word(x))[p % 16]
  {
    hide Crc16.Bits, Word, Crc16.Step;
    if n == 0 {
      bits := [];
    } else {
      hide Crc16.Crc;
      var more := AgainIs(x, n - 1, crc);
      bits := more + Crc16.Bits(Word(x));
      Crc16.CrcAppend(more, Crc16.Bits(Word(x)), crc);
    }
  }

  /** The parts of a tour. */
  lemma TourParts(s: seq<Cell>, find_num: S16, finder_idx: S16, at: Contents, r: Course, m: Middle, key: Cell -> int,
                  middle: bv16)
    requires Toured(s, find_num, finder_idx, at, r, m, key, middle)
    ensures |r.orders| == |r.sums| == |r.finds| + 1 && |r.finds| == if find_num > 0 then find_num else 0
    ensures r.orders[0] == s && r.sums[0] == 0 && (find_num > 0 ==> m.low == (find_num - 1) % 256)
    ensures m.from < |s| - 1 < |m.order| && m.order[0] in m.at
    ensures middle == Again(m.at[m.order[0]].0, |s| - 1 - m.from, Word(r.sums[|r.finds|] % 0x1_0000))
  {
    hide Rearranged, ShortHit, Again, Word, RoundIs;
    assert m.order[0] in m.order;
  }

  /** Round i, by the data of the cells: what is looked for, that the first match is found or that there
      is none, the order after it, and its points. */
  lemma RoundMeaning(cells: set<Cell>, s: seq<Cell>, find_num: S16, finder_idx: S16, r: Course, m: Middle,
                     key: Cell -> int, middle: bv16, i: nat)
    returns (k: nat)
    requires Toured(s, find_num, finder_idx, ContentsOf(cells), r, m, key, middle) && i < |r.finds|
    ensures |r.orders| == |r.sums| == |r.finds| + 1 && forall j | 0 <= j < |r.orders[i]| :: r.orders[i][j] in cells
    ensures |r.orders[i + 1]| == |r.orders[i]| >= 2 && r.orders[i + 1][1] in cells
    ensures var idx := if finder_idx < 0 then finder_idx
                       else if finder_idx + i <= 0x7fff then finder_idx + i else -0x8000;
            var o, o', f := r.orders[i], r.orders[i + 1], r.finds[i];
            && (f == null ==>
                  && (forall j | 0 <= j < |o| :: if idx >= 0 then o[j].info.idx != idx else o[j].info.Low() != i % 256)
                  && r.sums[i + 1] == r.sums[i] + o'[1].info.data16 / 256 % 2 - 1)
            && (f != null ==>
                  && k < |o| && o[k] == f && (if idx >= 0 then f.info.idx == idx else f.info.Low() == i % 256)
                  && (forall j | 0 <= j < k :: if idx >= 0 then o[j].info.idx != idx else o[j].info.Low() != i % 256)
                  && r.sums[i + 1] ==
                     r.sums[i] + 4 + if f.info.data16 % 2 == 1 then f.info.data16 / 512 % 2 else 0)
            && forall j {:trigger o'[j]} | 0 <= j < |o| ::
                 o'[j] ==
                 if f == null || k == 0 then o[|o| - 1 - j]
                 else if j == 1 then o[k - 1] else if 1 < j <= |o| - k then o[|o| - j] else o[|o| - 1 - j]
  {
    hide AfterRound, ContentsOf, NoRepeats, Rearranged, ShortHit, Again, Word;
    var idx, o, f := IdxAt(finder_idx, i), r.orders[i], r.finds[i];
    assert RoundIs(ContentsOf(cells), o, f, r.orders[i + 1], r.sums[i], r.sums[i + 1], idx, i % 256);
    OnlyCells(cells);
    forall c | c in cells ensures c in ContentsOf(cells) && ContentsOf(cells)[c] == (c.info.data16, c.info.idx) {
      ContentsAt(cells, c);
    }
    k := 0;
    if f != null {
      k :| 0 <= k < |o| && o[k] == f && Hit(ContentsOf(cells)[f], idx, i % 256) &&
        forall j | 0 <= j < k :: !Hit(ContentsOf(cells)[o[j]], idx, i % 256);
    }
    AfterRoundIs(o, f, k);
  }

  lemma OnlyCells(cells: set<Cell>)
    ensures ContentsOf(cells).Keys == cells
  {
  }

  /** The order and the contents in the middle: what they were if finder_idx is not above zero; else a
      stable sort by the keys, and the keys cached. */
  lemma MiddleMeaning(cells: set<Cell>, s: seq<Cell>, find_num: S16, finder_idx: S16, r: Course, m: Middle,
                      key: Cell -> int, middle: bv16, v: int)
    requires Toured(s, find_num, finder_idx, ContentsOf(cells), r, m, key, middle)
    ensures |r.orders| == |r.finds| + 1
    ensures finder_idx <= 0 ==> m.order == r.orders[|r.finds|] && m.at == ContentsOf(cells)
    ensures finder_idx > 0 ==>
              && multiset(m.order) == multiset(r.orders[|r.finds|])
              && WithKey(m.order, key, v) == WithKey(r.orders[|r.finds|], key, v)
              && forall i, j | 0 <= i < j < |m.order| :: key(m.order[i]) <= key(m.order[j])
    ensures finder_idx > 0 ==>
              forall c | c in cells ::
                c in m.at && m.at[c] == (c.info.data16 / 256 * 256 + 128 + key(c), c.info.idx as int)
  {
    hide MergeSort, WithKey, Searched, ShortHit, Again, Word;
    MergeSortSorts(r.orders[|r.finds|], key, v);
  }

  /** Where the walk starts: at the first match in the list without the item of its second cell, or at the
      second place if there is none. */
  lemma WalkMeaning(s: seq<Cell>, find_num: S16, finder_idx: S16, at: Contents, r: Course, m: Middle,
                    key: Cell -> int, middle: bv16)
    requires Toured(s, find_num, finder_idx, at, r, m, key, middle)
    ensures forall c | c in m.order :: c in m.at
    ensures var idx := if finder_idx < 0 then finder_idx
                       else if finder_idx + |r.finds| <= 0x7fff then finder_idx + |r.finds| else -0x8000;
            var items := seq(|m.order| - 1, j requires 0 <= j < |m.order| - 1 =>
                             m.at[m.order[if j == 0 then 0 else j + 1]]);
            && m.from < |items|
            && (forall j | 0 <= j < m.from :: if idx >= 0 then items[j].1 != idx else items[j].0 % 256 != m.low)
            && ((if idx >= 0 then items[m.from].1 == idx else items[m.from].0 % 256 == m.low) ||
                (m.from == 1 &&
                 forall j | 0 <= j < |items| :: if idx >= 0 then items[j].1 != idx else items[j].0 % 256 != m.low))
  {
    hide Searched, Rearranged, Again, Word;
    var items := seq(|m.order| - 1, j requires 0 <= j < |m.order| - 1 =>
                     m.at[m.order[if j == 0 then 0 else j + 1]]);
    forall j: nat | j < |items| ensures items[j] == m.at[m.order[Left(j)]] {}
  }

  // ---- what the results come to

  /** The data of the items. */
  ghost function Data(cells: set<Cell>): map<Info, U16>
    reads cells`info, (set c | c in cells :: c.info)`data16
  {
    map i | i in Items(cells) :: i.data16
  }

  lemma Ahead(cells: set<Cell>, bench: Info -> S16)
    ensures var data := Data(cells);
            forall d :: d in Pending(Items(cells), bench) <==>
              && d.info in data && data[d.info] / 128 % 2 == 0 && d.flag == data[d.info] % 8
              && d.result == if d.flag <= 1 then bench(d.info) % 0x1_0000 else data[d.info]
  {
  }

  /** The checksum after each operation. */
  lemma {:induction false} CrcSteps(log: seq<Done>, crc: bv16) returns (crcs: seq<bv16>)
    ensures |crcs| == |log| + 1 && crcs[0] == crc && crcs[|log|] == CrcRun(log, crc)
    ensures forall k | 0 <= k < |log| :: crcs[k + 1] == Crc16.Crc(Crc16.Bits(Word(log[k].result)), crcs[k])
  {
    hide Crc16.Crc, Crc16.Bits, Word;
    if log == [] {
      crcs := [crc];
    } else {
      crcs := CrcSteps(log[..|log| - 1], crc);
      crcs := crcs + [CrcRun(log, crc)];
    }
  }

  /** The first result of an operation that is not zero, in a field that was zero. */
  lemma {:induction false} FirstIs(log: seq<Done>, flag: int, was: U16)
    ensures was != 0 ==> FirstResult(log, flag, was) == was
    ensures FirstResult(log, flag, 0) == 0 ==> forall k | 0 <= k < |log| && log[k].flag == flag :: log[k].result == 0
    ensures FirstResult(log, flag, 0) != 0 ==>
              exists k ::
                && 0 <= k < |log| && log[k].flag == flag && log[k].result == FirstResult(log, flag, 0)
                && forall j | 0 <= j < k && log[j].flag == flag :: log[j].result == 0
  {
    if log != [] {
      var t := log[..|log| - 1];
      FirstIs(t, flag, was);
      if FirstResult(t, flag, 0) != 0 {
        var k :| 0 <= k < |t| && t[k].flag == flag && t[k].result == FirstResult(t, flag, 0) &&
          forall j | 0 <= j < k && t[j].flag == flag :: t[j].result == 0;
        assert log[k] == t[k];
      }
    }
  }

  /** What a complete log says of the results, by the data at the start. */
  lemma LogMeaning(res: Results, data: map<Info, U16>, bench: Info -> S16)
    returns (log: seq<Info>, results: seq<U16>, crcs: seq<bv16>)
    requires Complete(res)
    requires forall d :: d in res.start.todo <==>
               && d.info in data && data[d.info] / 128 % 2 == 0 && d.flag == data[d.info] % 8
               && d.result == if d.flag <= 1 then bench(d.info) % 0x1_0000 else data[d.info]
    ensures |results| == |log| && |crcs| == |log| + 1 && forall i, j | 0 <= i < j < |log| :: log[i] != log[j]
    ensures forall i :: i in log <==> i in data && data[i] / 128 % 2 == 0
    ensures forall k | 0 <= k < |log| ::
              results[k] == if data[log[k]] % 8 <= 1 then bench(log[k]) % 0x1_0000 else data[log[k]]
    ensures crcs[0] == res.start.crc && res.crc == crcs[|log|] &&
            forall k | 0 <= k < |log| :: crcs[k + 1] == Crc16.Crc(Crc16.Bits(Word(results[k])), crcs[k])
    ensures |log| == |res.log| && forall k | 0 <= k < |log| :: res.log[k] == Done(log[k], data[log[k]] % 8, results[k])
  {
    hide CrcRun, FirstResult, Crc16.Crc, Crc16.Bits, Word;
    var l := res.log;
    log := seq(|l|, k requires 0 <= k < |l| => l[k].info);
    results := seq(|l|, k requires 0 <= k < |l| => l[k].result);
    crcs := CrcSteps(l, res.start.crc);
    forall k | 0 <= k < |l| ensures l[k] in res.start.todo {}
    forall i | i in data && data[i] / 128 % 2 == 0 ensures i in log {
      var f := data[i] % 8;
      var d := Done(i, f, if f <= 1 then bench(i) % 0x1_0000 else data[i]);
      assert d in l;
      var k :| 0 <= k < |l| && l[k] == d;
      assert log[k] == i;
    }
  }

  /** The same, by the data of the items, which is again what it was at the start. */
  lemma LogOutcome(cells: set<Cell>, res: Results, data: map<Info, U16>, bench: Info -> S16)
    returns (log: seq<Info>, results: seq<U16>, crcs: seq<bv16>)
    requires Complete(res) && data == Data(cells)
    requires forall d :: d in res.start.todo <==>
               && d.info in data && data[d.info] / 128 % 2 == 0 && d.flag == data[d.info] % 8
               && d.result == if d.flag <= 1 then bench(d.info) % 0x1_0000 else data[d.info]
    ensures |results| == |log| && |crcs| == |log| + 1 && forall i | i in log :: exists c | c in cells :: c.info == i
    ensures forall i, j | 0 <= i < j < |log| :: log[i] != log[j]
    ensures forall c | c in cells :: c.info in log <==> c.info.data16 / 128 % 2 == 0
    ensures forall k | 0 <= k < |log| ::
              results[k] == if log[k].data16 % 8 <= 1 then bench(log[k]) % 0x1_0000 else log[k].data16
    ensures crcs[0] == res.start.crc && crcs[|log|] == res.crc &&
            forall k | 0 <= k < |log| :: crcs[k + 1] == Crc16.Crc(Crc16.Bits(Word(results[k])), crcs[k])
    ensures FirstOfKind(log, results, 0, res.start.crcstate, res.crcstate)
    ensures FirstOfKind(log, results, 1, res.start.crcmatrix, res.crcmatrix)
  {
    hide CrcRun, FirstResult, Crc16.Crc, Crc16.Bits, Word;
    log, results, crcs := LogMeaning(res, data, bench);
    FirstIs(res.log, 0, res.start.crcstate);
    FirstIs(res.log, 1, res.start.crcmatrix);
    forall i | i in log ensures data[i] == i.data16 && exists c | c in cells :: c.info == i {}
  }

  /** now is the first result that is not zero among those of the kind, or was, or zero. */
  ghost predicate FirstOfKind(log: seq<Info>, results: seq<U16>, flag: int, was: U16, now: U16)
    requires |results| == |log|
    reads (set i | i in log)`data16
  {
    && (was != 0 ==> now == was)
    && (was == 0 && now == 0 ==> forall k | 0 <= k < |log| && log[k].data16 % 8 == flag :: results[k] == 0)
    && (was == 0 && now != 0 ==>
          exists k ::
            && 0 <= k < |log| && log[k].data16 % 8 == flag && results[k] == now
            && forall j | 0 <= j < k && log[j].data16 % 8 == flag :: results[j] == 0)
  }

  /** What regenerated cells hold can be told from their backups. */
  lemma Restored(cells: set<Cell>, backups: map<Cell, (Info, int, int)>, bench: Info -> S16)
    requires Backups(cells) == backups && forall c | c in cells :: Regenerated(c.info)
    ensures backups.Keys == cells
    ensures forall c | c in cells ::
              c in backups && c.info == backups[c].0 && c.info.idx == backups[c].1 &&
                c.info.data16 == 257 * backups[c].2
    ensures ContentsOf(cells) == ContentsBack(backups)
    ensures forall c | c in cells :: Value(c.info, bench) == ValueBack(backups[c], bench)
  {
    forall c | c in cells ensures c.info.data16 == 257 * c.info.High() {
      assert Regenerated(c.info);
    }
  }

  function ContentsBack(backups: map<Cell, (Info, int, int)>): map<Cell, (int, int)> {
    map c | c in backups :: (257 * backups[c].2, backups[c].1)
  }

  function ValueBack(b: (Info, int, int), bench: Info -> S16): int {
    var d := 257 * b.2;
    if d / 128 % 2 == 0 && d % 8 <= 1 then bench(b.0) % 128 else d % 128
  }

  lemma ItemsAre(cells: set<Cell>, backups: map<Cell, (Info, int, int)>)
    requires backups.Keys == cells && forall c | c in cells :: c.info == backups[c].0
    ensures Items(cells) == set c | c in backups :: backups[c].0
  {
  }

  lemma DataIs(cells: set<Cell>, data: map<Info, U16>)
    requires data.Keys == Items(cells) && forall c | c in cells :: c.info in data && data[c.info] == c.info.data16
    ensures data == Data(cells)
  {
  }

  lemma DataAt(cells: set<Cell>)
    ensures Data(cells).Keys == Items(cells)
    ensures forall c | c in cells :: c.info in Data(cells) && Data(cells)[c.info] == c.info.data16
  {
  }

  /** core_bench_list.  For a list of at least three cells, in strict order of idx and
      with data equal to its backup, whatever the search, the operation results and the
      number of rounds: every cell ends up with the same successor, the same item and
      the same idx and data, and the list starts at the same head.  With finder_idx above
      zero, and only then, the operations of all items not cached are carried out, in
      some order, each once. */
  method BenchList(head: Cell, find_num: S16, finder_idx: S16, bench: Info -> S16, res: Results,
                   ghost s: seq<Cell>, ghost cells: set<Cell>, ghost infos: set<Info>)
    returns (retval: bv16, ghost r: Course, ghost m: Middle, ghost key: Cell -> int, ghost middle: bv16,
             ghost log: seq<Info>, ghost results: seq<U16>, ghost crcs: seq<bv16>)
    requires IsList(head, s) && |s| >= 3 && Owns(s, cells, infos)
    requires forall i, j | 0 <= i < j < |s| :: s[i].info.idx < s[j].info.idx
    requires forall c | c in cells :: Regenerated(c.info)
    modifies cells, infos, res
    ensures IsList(head, s)
    ensures forall c | c in cells :: c.info == old(c.info)
    ensures forall c | c in cells :: c.info.idx == old(c.info.idx) && c.info.data16 == old(c.info.data16)
    ensures finder_idx > 0 ==> forall c | c in cells :: key(c) == Value(c.info, bench)
    ensures Toured(s, find_num, finder_idx, ContentsOf(cells), r, m, key, middle)
    ensures retval == Again(head.info.data16, |s| - 1, middle)
    ensures finder_idx <= 0 ==>
              res.crc == old(res.crc) && res.crcstate == old(res.crcstate) && res.crcmatrix == old(res.crcmatrix)
    ensures |results| == |log| && |crcs| == |log| + 1
    ensures forall i | i in log :: exists c | c in cells :: c.info == i
    ensures finder_idx > 0 ==>
              && (forall i, j | 0 <= i < j < |log| :: log[i] != log[j])
              && (forall c | c in cells :: c.info in log <==> c.info.data16 / 128 % 2 == 0)
              && forall k | 0 <= k < |log| ::
                   results[k] == if log[k].data16 % 8 <= 1 then bench(log[k]) % 0x1_0000 else log[k].data16
    ensures finder_idx > 0 ==>
              && crcs[0] == old(res.crc) && crcs[|log|] == res.crc
              && forall k | 0 <= k < |log| :: crcs[k + 1] == Crc16.Crc(Crc16.Bits(Word(results[k])), crcs[k])
    ensures finder_idx > 0 && old(res.crcstate) != 0 ==> res.crcstate == old(res.crcstate)
    ensures finder_idx > 0 && old(res.crcstate) == 0 && res.crcstate == 0 ==>
              forall k | 0 <= k < |log| && log[k].data16 % 8 == 0 :: results[k] == 0
    ensures finder_idx > 0 && old(res.crcstate) == 0 && res.crcstate != 0 ==>
              exists k ::
                && 0 <= k < |log| && log[k].data16 % 8 == 0 && results[k] == res.crcstate
                && forall j | 0 <= j < k && log[j].data16 % 8 == 0 :: results[j] == 0
    ensures finder_idx > 0 && old(res.crcmatrix) != 0 ==> res.crcmatrix == old(res.crcmatrix)
    ensures finder_idx > 0 && old(res.crcmatrix) == 0 && res.crcmatrix == 0 ==>
              forall k | 0 <= k < |log| && log[k].data16 % 8 == 1 :: results[k] == 0
    ensures finder_idx > 0 && old(res.crcmatrix) == 0 && res.crcmatrix != 0 ==>
              exists k ::
                && 0 <= k < |log| && log[k].data16 % 8 == 1 && results[k] == res.crcmatrix
                && forall j | 0 <= j < k && log[j].data16 % 8 == 1 :: results[j] == 0
  {
    hide Complete, Before, Crc16.Crc, Crc16.Bits, Word, Toured, Again, IsList, Owns, Backups, ContentsOf, Regenerated,
      Value;
    ghost var backups, data := Backups(cells), Data(cells);
    HeadOf(head, s);
    Restored(cells, backups, bench);
    ItemsAre(cells, backups);
    DataAt(cells);
    Ahead(cells, bench);
    BeforeIs(cells, bench, res);
    var list;
    list, retval, r, m, key, middle := BenchSteps(head, find_num, finder_idx, bench, res, s, cells, infos);
    Restored(cells, backups, bench);
    HeadOf(list, s);
    log, results, crcs := [], [], [res.crc];
    if finder_idx > 0 {
      ItemsAre(cells, backups);
      DataIs(cells, data);
      log, results, crcs := LogOutcome(cells, res, data, bench);
    }
  }

  lemma BeforeIs(cells: set<Cell>, bench: Info -> S16, res: Results)
    ensures Before(cells, bench, res) == Start(Pending(Items(cells), bench), res.crc, res.crcstate, res.crcmatrix)
  {
  }
}
