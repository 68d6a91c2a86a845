/** core_list_join.c: CoreMark's linked list, its in-place merge sort and the list
    benchmark that must leave the list as it found it. */
module CoreList {
  import opened MergeRuns
  import opened Powers
  import opened Sequences
  import Crc16

  type U16 = x: int | 0 <= x < 0x1_0000
  type S16 = x: int | -0x8000 <= x < 0x8000

  /** list_data.  data16 is the 16-bit pattern; its high byte is a backup copy. */
  class Info {
    var data16: U16
    var idx: S16

    function High(): int reads this`data16 { data16 / 256 }

    function Low(): int reads this`data16 { data16 % 256 }
  }

  /** list_head. */
  class Cell {
    var next: Cell?
    var info: Info

    constructor (next: Cell?, info: Info)
      ensures this.next == next && this.info == info
    {
      this.next, this.info := next, info;
    }
  }

  /** An operation carried out: the item, its low bits and the result. */
  datatype Done = Done(info: Info, flag: int, result: U16)

  /** The operations ahead at some point, and the fields of the results then. */
  datatype Start = Start(todo: set<Done>, crc: bv16, crcstate: U16, crcmatrix: U16)

  /** What core_results has for calc_func: the running checksum, and the first checksum of
      either operation.  The log tells what was carried out since the start, in order. */
  class Results {
    var crc: bv16
    var crcstate: U16
    var crcmatrix: U16
    ghost var start: Start
    ghost var log: seq<Done>
  }

  /** The comparison passed to the sort: cmp_idx (which regenerates the data when its
      result pointer is null), cmp_complex (with the results of the state and matrix
      benchmarks for each item as an arbitrary function), any other that orders the items by
      some rank, which may depend on where an item is and what it holds, or any function at
      all. */
  datatype Cmp =
    | ByIdx(resIsNull: bool)
    | ByData(bench: Info -> S16, res: Results)
    | Ordered(rank: (Info, U16, S16) -> int)
    | Anything

  /** What a comparison changes beside its items. */
  ghost function Touched(cmp: Cmp): set<Results> { if cmp.ByData? then {cmp.res} else {} }

  // ---- comparing

  /** What calc_func returns for an item: the cached low seven bits, or else the
      result of the operation its low bits select. */
  function Value(info: Info, bench: Info -> S16): (v: int)
    reads info`data16
    ensures 0 <= v < 128
  {
    if info.data16 / 128 % 2 == 1 then info.data16 % 128
    else if info.data16 % 8 <= 1 then bench(info) % 128
    else info.data16 % 128
  }

  function KeyOf(cmp: Cmp, info: Info): int
    reads info`data16, info`idx
  {
    match cmp
    case ByIdx(_) => info.idx
    case ByData(bench, _) => Value(info, bench)
    case Ordered(rank) => rank(info, info.data16, info.idx)
    case Anything => 0
  }

  /** The result of the operation, before it is cut down to seven bits. */
  function Result(info: Info, bench: Info -> S16): U16
    reads info`data16
  {
    if info.data16 % 8 <= 1 then bench(info) % 0x1_0000 else info.data16
  }

  predicate Cached(info: Info)
    reads info`data16
  {
    info.data16 / 128 % 2 == 1
  }

  function FirstOf(was: U16, now: U16): U16 { if was == 0 then now else was }

  function Word(x: U16): bv16 { x as bv16 }

  /** Which operation, from the low bits. */
  function Flag(info: Info): int
    reads info`data16
  {
    info.data16 % 8
  }

  /** The part of calc_func that carries out an operation, which goes into the checksum, and is
      noted if it is the first of its kind. */
  method Operate(info: Info, bench: Info -> S16, res: Results) returns (result: U16)
    modifies res
    ensures result == Result(info, bench) && res.crc == Crc16.Crc(Crc16.Bits(Word(result)), old(res.crc))
    ensures res.crcstate == if Flag(info) == 0 then FirstOf(old(res.crcstate), result) else old(res.crcstate)
    ensures res.crcmatrix == if Flag(info) == 1 then FirstOf(old(res.crcmatrix), result) else old(res.crcmatrix)
    ensures res.start == old(res.start) && res.log == old(res.log)
  {
    hide Crc16.Crc, Crc16.Bits, Word;
    var flag := info.data16 % 8;
    if flag == 0 {
      result := bench(info) % 0x1_0000;
      if res.crcstate == 0 { res.crcstate := result; }
    } else if flag == 1 {
      result := bench(info) % 0x1_0000;
      if res.crcmatrix == 0 { res.crcmatrix := result; }
    } else {
      result := info.data16;
    }
    res.crc := Crc16.CrcU16(Word(result), res.crc);
  }

  /** The operations that the items not cached yet are waiting for. */
  ghost function Pending(items: set<Info>, bench: Info -> S16): set<Done>
    reads items`data16
  {
    set i | i in items && !Cached(i) :: Done(i, Flag(i), Result(i, bench))
  }

  /** A checksum run over the results of a log. */
  function CrcRun(log: seq<Done>, crc: bv16): bv16 {
    if log == [] then crc
    else Crc16.Crc(Crc16.Bits(Word(log[|log| - 1].result)), CrcRun(log[..|log| - 1], crc))
  }

  /** The first result of an operation that is not zero, unless there was one before. */
  function FirstResult(log: seq<Done>, flag: int, was: U16): U16 {
    if log == [] then was
    else
      var first := FirstResult(log[..|log| - 1], flag, was);
      if log[|log| - 1].flag == flag then FirstOf(first, log[|log| - 1].result) else first
  }

  /** The fields are what the log makes of those at the start. */
  ghost predicate Settled(res: Results)
    reads res`crc, res`crcstate, res`crcmatrix, res`start, res`log
  {
    && res.crc == CrcRun(res.log, res.start.crc)
    && res.crcstate == FirstResult(res.log, 0, res.start.crcstate)
    && res.crcmatrix == FirstResult(res.log, 1, res.start.crcmatrix)
  }

  /** Every operation that was ahead at the start either is in the log, once, its item cached, or
      still ahead. */
  ghost predicate Account(items: set<Info>, bench: Info -> S16, log: seq<Done>, todo: set<Done>)
    reads items`data16
  {
    && (set d | d in log) + Pending(items, bench) == todo
    && (forall d | d in log :: d.info in items && Cached(d.info))
    && forall i, j | 0 <= i < j < |log| :: log[i].info != log[j].info
  }

  /** calc_func: caches the value in the low byte, keeps the backup; of an item that is cached
      already nothing changes, nor the results. */
  method CalcFunc(info: Info, bench: Info -> S16, res: Results) returns (retval: int)
    modifies info`data16, res
    ensures retval == old(Value(info, bench)) == Value(info, bench)
    ensures retval == if old(info.data16) / 128 % 2 == 0 && old(info.data16) % 8 <= 1 then bench(info) % 128
                      else old(info.data16) % 128
    ensures info.High() == old(info.High()) && info.Low() == 128 + retval && Cached(info)
    ensures res.crc == if old(Cached(info)) then old(res.crc)
                       else Crc16.Crc(Crc16.Bits(Word(old(Result(info, bench)))), old(res.crc))
    ensures res.crcstate == if !old(Cached(info)) && old(Flag(info)) == 0
                            then FirstOf(old(res.crcstate), old(Result(info, bench))) else old(res.crcstate)
    ensures res.crcmatrix == if !old(Cached(info)) && old(Flag(info)) == 1
                             then FirstOf(old(res.crcmatrix), old(Result(info, bench))) else old(res.crcmatrix)
    ensures res.start == old(res.start)
    ensures res.log == old(res.log) + if old(Cached(info)) then []
              else [Done(info, old(Flag(info)), old(Result(info, bench)))]
  {
    hide Crc16.Crc, Crc16.Bits, Word, FirstOf, Flag, Result;
    var data := info.data16;
    if data / 128 % 2 == 1 {
      retval := data % 128;
    } else {
      var result := Operate(info, bench, res);
      retval := result % 128;
      ResultValue(info, bench);
      CachedParts(data / 256, retval);
      res.log := res.log + [Done(info, Flag(info), result)];
      info.data16 := data / 256 * 256 + 128 + retval;
    }
  }

  lemma LogMore(log: seq<Done>, d: Done, crc: bv16, flag: int, was: U16)
    ensures CrcRun(log + [d], crc) == Crc16.Crc(Crc16.Bits(Word(d.result)), CrcRun(log, crc))
    ensures FirstResult(log + [d], flag, was) ==
            if d.flag == flag then FirstOf(FirstResult(log, flag, was), d.result) else FirstResult(log, flag, was)
  {
    hide Crc16.Crc, Crc16.Bits, Word, FirstOf;
    assert (log + [d])[..|log|] == log;
  }

  /** calc_func on one of the items of a sort: the account is kept. */
  method Evaluate(info: Info, bench: Info -> S16, res: Results, ghost items: set<Info>) returns (retval: int)
    requires info in items && Settled(res) && Account(items, bench, res.log, res.start.todo)
    modifies info`data16, res
    ensures retval == old(Value(info, bench)) == Value(info, bench)
    ensures info.High() == old(info.High()) && Cached(info)
    ensures Settled(res) && Account(items, bench, res.log, res.start.todo) && res.start == old(res.start)
  {
    hide Crc16.Crc, Crc16.Bits, Word, FirstOf, Flag, Result, CrcRun, FirstResult, Value, Cached;
    ghost var log, pending, d := res.log, Pending(items, bench), Done(info, Flag(info), Result(info, bench));
    ghost var cached := Cached(info);
    retval := CalcFunc(info, bench, res);
    if !cached {
      LogMore(log, d, res.start.crc, 0, res.start.crcstate);
      LogMore(log, d, res.start.crc, 1, res.start.crcmatrix);
      assert Pending(items, bench) == pending - {d};
      assert (set e | e in log + [d]) == (set e | e in log) + {d};
    } else {
      assert Pending(items, bench) == pending;
      assert log + [] == log;
    }
  }

  lemma ResultValue(info: Info, bench: Info -> S16)
    requires !Cached(info)
    ensures Result(info, bench) % 128 == Value(info, bench)
  {
    LowSeven(bench(info));
  }

  lemma LowSeven(x: int)
    ensures x % 0x1_0000 % 128 == x % 128
  {
  }

  lemma CachedParts(high: int, low: int)
    requires 0 <= low < 128
    ensures var d := high * 256 + 128 + low;
            d / 256 == high && d % 256 == 128 + low && d / 128 % 2 == 1 && d % 128 == low
  {
    var d := high * 256 + 128 + low;
    DivModUnique(d, 256, high, 128 + low);
    DivModUnique(d, 128, 2 * high + 1, low);
    DivModUnique(2 * high + 1, 2, high, 1);
  }

  predicate Regenerated(info: Info)
    reads info`data16
  {
    info.Low() == info.High()
  }

  /** data16 = (data16 & 0xff00) | (0x00ff & (data16 >> 8)). */
  method Regenerate(info: Info)
    modifies info`data16
    ensures Regenerated(info) && info.High() == old(info.High())
  {
    info.data16 := info.data16 / 256 * 256 + info.data16 / 256;
  }

  /** cmp_idx */
  method CmpIdx(a: Info, b: Info, resIsNull: bool) returns (c: int)
    modifies a`data16, b`data16
    ensures c == a.idx - b.idx && a.High() == old(a.High()) && b.High() == old(b.High())
    ensures resIsNull ==> Regenerated(a) && Regenerated(b)
  {
    if resIsNull {
      Regenerate(a);
      Regenerate(b);
    }
    c := a.idx - b.idx;
  }

  /** cmp_complex */
  method CmpComplex(a: Info, b: Info, bench: Info -> S16, res: Results, ghost items: set<Info>) returns (c: int)
    requires a in items && b in items && Settled(res) && Account(items, bench, res.log, res.start.todo)
    modifies a`data16, b`data16, res
    ensures Settled(res) && Account(items, bench, res.log, res.start.todo) && res.start == old(res.start)
    ensures c == old(Value(a, bench)) - old(Value(b, bench)) && Cached(a) && Cached(b)
    ensures Value(a, bench) == old(Value(a, bench)) && Value(b, bench) == old(Value(b, bench))
    ensures a.High() == old(a.High()) && b.High() == old(b.High())
  {
    hide Settled, Account, Value, Cached;
    var val1 := Evaluate(a, bench, res, items);
    var val2 := Evaluate(b, bench, res, items);
    c := val1 - val2;
  }

  predicate SameSign(c: int, d: int) { (c < 0 <==> d < 0) && (c > 0 <==> d > 0) }

  /** What a sort by data keeps of its results. */
  ghost predicate Accounted(cmp: Cmp, items: set<Info>)
    reads items`data16, Touched(cmp)`crc, Touched(cmp)`crcstate, Touched(cmp)`crcmatrix, Touched(cmp)`start,
          Touched(cmp)`log
  {
    cmp.ByData? ==> Settled(cmp.res) && Account(items, cmp.bench, cmp.res.log, cmp.res.start.todo)
  }

  /** cmp_idx, cmp_complex, another order, or an unknown comparison that may do anything to its
      two items. */
  method Compare(cmp: Cmp, a: Info, b: Info, ghost items: set<Info>) returns (c: int)
    requires a in items && b in items && Accounted(cmp, items)
    modifies a, b, Touched(cmp)
    ensures Accounted(cmp, items) && (cmp.ByData? ==> cmp.res.start == old(cmp.res.start) && Cached(a) && Cached(b))
    ensures cmp.ByIdx? || cmp.ByData? ==> c == KeyOf(cmp, a) - KeyOf(cmp, b)
    ensures cmp != Anything ==>
              && SameSign(c, KeyOf(cmp, a) - KeyOf(cmp, b))
              && KeyOf(cmp, a) == old(KeyOf(cmp, a)) && KeyOf(cmp, b) == old(KeyOf(cmp, b))
              && a.High() == old(a.High()) && b.High() == old(b.High())
              && a.idx == old(a.idx) && b.idx == old(b.idx)
    ensures cmp == ByIdx(true) ==> Regenerated(a) && Regenerated(b)
  {
    hide Settled, Account, Value, Cached, Regenerated;
    match cmp {
      case ByIdx(resIsNull) =>
        c := CmpIdx(a, b, resIsNull);
      case ByData(bench, res) =>
        c := CmpComplex(a, b, bench, res, items);
      case Ordered(rank) =>
        var d := rank(a, a.data16, a.idx) - rank(b, b.data16, b.idx);
        assert SameSign(d, d);
        c :| SameSign(c, d);
      case Anything =>
        a.data16, a.idx := *, *;
        b.data16, b.idx := *, *;
        c := *;
    }
  }

  // ---- the shape of the list during a merge

  /** The cells from position lo of s on are chained and end in a null pointer. */
  ghost predicate Tail(s: seq<Cell>, lo: int)
    reads s
  {
    forall i {:trigger s[i].next} | 0 <= lo <= i < |s| :: s[i].next == if i + 1 < |s| then s[i + 1] else null
  }

  ghost predicate Chain(s: seq<Cell>, lo: int, hi: int)
    reads s
  {
    forall i {:trigger s[i].next} | 0 <= lo <= i < hi - 1 && hi <= |s| :: s[i].next == s[i + 1]
  }

  /** All cells, in this order: m merged ones from list to tail, then the rest of the
      first run from p, then everything from q. */
  ghost predicate Merging(s: seq<Cell>, m: nat, psize: nat, list: Cell?, tail: Cell?, p: Cell?, q: Cell?)
    reads s
  {
    && m + psize <= |s| && NoRepeats(s)
    && (if m == 0 then list == null && tail == null else list == s[0] && tail == s[m - 1])
    && (psize > 0 ==> p == s[m])
    && (q == if m + psize < |s| then s[m + psize] else null)
    && Chain(s, 0, m) && Chain(s, m, m + psize) && Tail(s, m + psize)
  }

  /** s with the element at m + psize moved down to m. */
  function Rotated<T>(s: seq<T>, m: nat, psize: nat): (t: seq<T>)
    requires m + psize < |s|
    ensures |t| == |s|
  {
    seq(|s|, i requires 0 <= i < |s| =>
      if i < m || m + psize < i then s[i] else if i == m then s[m + psize] else s[i - 1])
  }

  lemma RotatedAt<T>(s: seq<T>, m: nat, psize: nat) returns (t: seq<T>)
    requires m + psize < |s|
    ensures t == Rotated(s, m, psize) && |t| == |s|
    ensures forall i {:trigger t[i]} | 0 <= i < |s| ::
              t[i] == if i < m || m + psize < i then s[i] else if i == m then s[m + psize] else s[i - 1]
  {
    t := Rotated(s, m, psize);
    forall i | 0 <= i < |s|
      ensures t[i] == if i < m || m + psize < i then s[i] else if i == m then s[m + psize] else s[i - 1]
    {
    }
  }

  lemma RotatedSlice<T>(s: seq<T>, m: nat, psize: nat, lo: nat, hi: nat)
    requires lo <= m && m + psize < hi <= |s|
    ensures Rotated(s, m, psize)[lo..hi] == Rotated(s[lo..hi], m - lo, psize)
  {
    hide Rotated;
    var t := RotatedAt(s, m, psize);
    var u := RotatedAt(s[lo..hi], m - lo, psize);
    assert t[lo..hi] == u;
  }

  lemma RotatedDistinct<T>(s: seq<T>, m: nat, psize: nat)
    requires m + psize < |s| && NoRepeats(s)
    ensures NoRepeats(Rotated(s, m, psize))
  {
    hide Rotated;
    var t := RotatedAt(s, m, psize);
  }

  lemma RotatedMultiset<T>(s: seq<T>, m: nat, psize: nat)
    requires m + psize < |s|
    ensures multiset(Rotated(s, m, psize)) == multiset(s)
  {
    assert s == s[..m] + s[m..m + psize] + [s[m + psize]] + s[m + psize + 1..];
    assert Rotated(s, m, psize) == s[..m] + [s[m + psize]] + s[m..m + psize] + s[m + psize + 1..];
  }

  /** The cell a pointer points to, if any. */
  ghost function Cells(tail: Cell?): set<Cell> { if tail == null then {} else {tail} }

  /** Append e, the cell at position m of s, to the merged list. */
  method Append(list: Cell?, tail: Cell?, e: Cell, ghost s: seq<Cell>, ghost m: nat) returns (list': Cell, tail': Cell)
    requires m < |s| && s[m] == e && NoRepeats(s) && Chain(s, 0, m)
    requires if m == 0 then list == null && tail == null else list == s[0] && tail == s[m - 1]
    modifies Cells(tail)`next
    ensures list' == s[0] && tail' == s[m] && Chain(s, 0, m + 1)
    ensures forall i | m <= i < |s| :: s[i].next == old(s[i].next)
  {
    if tail != null {
      tail.next := e;
      list' := list;
    } else {
      list' := e;
    }
    tail' := e;
  }

  /** Link the next element of the merge, taken from the first run. */
  method TakeP(ghost s: seq<Cell>, ghost m: nat, ghost psize: nat, list: Cell?, tail: Cell?, p: Cell, ghost q: Cell?)
    returns (list': Cell?, tail': Cell?, p': Cell?)
    requires psize > 0 && Merging(s, m, psize, list, tail, p, q)
    modifies Cells(tail)`next
    ensures Merging(s, m + 1, psize - 1, list', tail', p', q)
  {
    hide NoRepeats;
    var e := p;
    p' := p.next;
    list', tail' := Append(list, tail, e, s, m);
  }

  lemma RotatedShape(s: seq<Cell>, m: nat, psize: nat)
    requires m + psize < |s| && NoRepeats(s)
    requires Chain(s, 0, m) && Chain(s, m, m + psize) && Tail(s, m + psize)
    ensures var t := Rotated(s, m, psize);
            && NoRepeats(t) && Chain(t, 0, m) && Chain(t, m + 1, m + 1 + psize) && Tail(t, m + 1 + psize)
            && t[m] == s[m + psize] && (m > 0 ==> t[m - 1] == s[m - 1] && t[0] == s[0])
            && (psize > 0 ==> t[m + 1] == s[m]) && (m + psize + 1 < |s| ==> t[m + psize + 1] == s[m + psize + 1])
  {
    hide Rotated;
    var t := RotatedAt(s, m, psize);
    RotatedDistinct(s, m, psize);
    assert Chain(t, m + 1, m + 1 + psize) by {
      assert forall i | m <= i < m + psize - 1 :: s[i].next == s[i + 1];
    }
  }

  /** Link the next element of the merge, taken from the second run. */
  method TakeQ(ghost s: seq<Cell>, ghost m: nat, ghost psize: nat, list: Cell?, tail: Cell?, ghost p: Cell?, q: Cell)
    returns (list': Cell?, tail': Cell?, q': Cell?)
    requires Merging(s, m, psize, list, tail, p, q)
    modifies Cells(tail)`next
    ensures m + psize < |s| && Merging(Rotated(s, m, psize), m + 1, psize, list', tail', p, q')
  {
    hide Rotated, NoRepeats;
    RotatedShape(s, m, psize);
    var e := q;
    q' := q.next;
    list', tail' := Append(list, tail, e, Rotated(s, m, psize), m);
  }

  // ---- merging two runs

  /** Which item each cell points to. */
  ghost function Wiring(cells: set<Cell>): map<Cell, Info>
    reads cells
  {
    map c | c in cells :: c.info
  }

  /** What no comparison changes of an item: idx, backup byte and sort key. */
  ghost function Facts(cmp: Cmp, infos: set<Info>): map<Info, (int, int, int)>
    reads infos
  {
    map i | i in infos :: (i.idx as int, i.High(), KeyOf(cmp, i))
  }

  twostate predicate Kept(cmp: Cmp, cells: set<Cell>, infos: set<Info>)
    reads cells, infos, Touched(cmp)
  {
    && Wiring(cells) == old(Wiring(cells)) && (cmp != Anything ==> Facts(cmp, infos) == old(Facts(cmp, infos)))
    && (cmp.ByData? ==> cmp.res.start == old(cmp.res.start))
  }

  /** s rearranges s0 between m0 and hi and is s0 outside. */
  ghost predicate Around<T>(s0: seq<T>, m0: int, hi: int, s: seq<T>) {
    && 0 <= m0 <= hi <= |s0| == |s|
    && s[..m0] == s0[..m0] && s[hi..] == s0[hi..]
    && multiset(s[m0..hi]) == multiset(s0[m0..hi])
  }

  /** What is merged from m0 to m, followed by the merge of the rest of the two runs. */
  ghost function Outcome<T>(key: T -> int, s: seq<T>, m0: int, m: int, psize: int, hi: int): seq<T>
    requires 0 <= m0 <= m <= m + psize <= hi <= |s|
  {
    s[m0..m] + Merge(s[m..m + psize], s[m + psize..hi], key)
  }

  ghost predicate Progress<T>(exact: bool, key: T -> int, s0: seq<T>, m0: int, psize0: int, hi: int,
                           s: seq<T>, m: int, psize: int) {
    && 0 <= m0 <= m0 + psize0 <= hi && m0 <= m <= m + psize <= hi
    && Around(s0, m0, hi, s)
    && (exact ==> Outcome(key, s, m0, m, psize, hi) == Outcome(key, s0, m0, m0, psize0, hi))
  }

  lemma ProgressStart<T>(exact: bool, key: T -> int, s: seq<T>, m: nat, psize: nat, hi: nat)
    requires m + psize <= hi <= |s|
    ensures Progress(exact, key, s, m, psize, hi, s, m, psize)
  {
  }

  lemma ProgressP<T>(exact: bool, key: T -> int, s0: seq<T>, m0: int, psize0: int, hi: int, s: seq<T>, m: int,
                     psize: int)
    requires Progress(exact, key, s0, m0, psize0, hi, s, m, psize) && psize > 0
    requires exact && m + psize < hi ==> key(s[m]) <= key(s[m + psize])
    ensures Progress(exact, key, s0, m0, psize0, hi, s, m + 1, psize - 1)
  {
    hide Outcome;
    if exact { OutcomeP(key, s, m0, m, psize, hi); }
  }

  lemma OutcomeP<T>(key: T -> int, s: seq<T>, m0: int, m: int, psize: int, hi: int)
    requires 0 <= m0 <= m < m + psize <= hi <= |s|
    requires m + psize < hi ==> key(s[m]) <= key(s[m + psize])
    ensures Outcome(key, s, m0, m, psize, hi) == Outcome(key, s, m0, m + 1, psize - 1, hi)
  {
    var p, q := s[m..m + psize], s[m + psize..hi];
    assert p[1..] == s[m + 1..m + psize];
    assert s[m0..m + 1] == s[m0..m] + [s[m]];
    assert q == [] ==> p == [p[0]] + p[1..];
  }

  lemma RotatedEnds<T>(s: seq<T>, m: nat, psize: nat, lo: nat, hi: nat)
    requires lo <= m && m + psize < hi <= |s|
    ensures var t := Rotated(s, m, psize);
            t[..lo] == s[..lo] && t[hi..] == s[hi..] && t[lo..m + 1] == s[lo..m] + [s[m + psize]]
  {
    hide Rotated;
    var t := RotatedAt(s, m, psize);
    assert t[..lo] == s[..lo];
    assert t[hi..] == s[hi..];
    assert t[lo..m + 1] == s[lo..m] + [s[m + psize]];
  }

  lemma RotatedMiddle<T>(s: seq<T>, m: nat, psize: nat, hi: nat)
    requires m + psize < hi <= |s|
    ensures var t := Rotated(s, m, psize);
            t[m + 1..m + 1 + psize] == s[m..m + psize] && t[m + 1 + psize..hi] == s[m + psize..hi][1..]
  {
    hide Rotated;
    var t := RotatedAt(s, m, psize);
    assert t[m + 1..m + 1 + psize] == s[m..m + psize];
    assert t[m + 1 + psize..hi] == s[m + psize..hi][1..];
  }

  lemma MergeFromSecond<T>(done: seq<T>, p: seq<T>, q: seq<T>, key: T -> int)
    requires q != [] && (p != [] ==> key(p[0]) > key(q[0]))
    ensures done + Merge(p, q, key) == done + [q[0]] + Merge(p, q[1..], key)
  {
    assert p == [] ==> q == [q[0]] + q[1..];
  }

  lemma ProgressQ<T>(exact: bool, key: T -> int, s0: seq<T>, m0: int, psize0: int, hi: int, s: seq<T>, m: int,
                     psize: int)
    requires Progress(exact, key, s0, m0, psize0, hi, s, m, psize) && m + psize < hi
    requires exact && psize > 0 ==> key(s[m]) > key(s[m + psize])
    ensures Progress(exact, key, s0, m0, psize0, hi, Rotated(s, m, psize), m + 1, psize)
  {
    hide Outcome, Rotated;
    if exact { OutcomeQ(key, s, m0, m, psize, hi); }
    AroundQ(s0, m0, hi, s, m, psize);
  }

  lemma AroundQ<T>(s0: seq<T>, m0: int, hi: int, s: seq<T>, m: int, psize: int)
    requires Around(s0, m0, hi, s) && m0 <= m <= m + psize < hi
    ensures Around(s0, m0, hi, Rotated(s, m, psize))
  {
    hide Rotated;
    RotatedEnds(s, m, psize, m0, hi);
    RotatedSlice(s, m, psize, m0, hi);
    RotatedMultiset(s[m0..hi], m - m0, psize);
  }

  lemma OutcomeQ<T>(key: T -> int, s: seq<T>, m0: int, m: int, psize: int, hi: int)
    requires 0 <= m0 <= m <= m + psize < hi <= |s|
    requires psize > 0 ==> key(s[m]) > key(s[m + psize])
    ensures Outcome(key, s, m0, m, psize, hi) == Outcome(key, Rotated(s, m, psize), m0, m + 1, psize, hi)
  {
    hide Rotated, Merge;
    RotatedEnds(s, m, psize, m0, hi);
    RotatedMiddle(s, m, psize, hi);
    MergeFromSecond(s[m0..m], s[m..m + psize], s[m + psize..hi], key);
    assert s[m + psize..hi][0] == s[m + psize];
  }

  ghost function Items(cells: set<Cell>): set<Info>
    reads cells`info
  {
    set c | c in cells :: c.info
  }

  /** What the sort knows of its data: whose cells and items these are, what the keys
      are, that items seen by a regenerating comparison are regenerated, those seen by
      cmp_complex cached, and that its results are accounted for. */
  ghost predicate Sound(cmp: Cmp, key: Cell -> int, s: seq<Cell>, seen: set<Cell>, cells: set<Cell>, infos: set<Info>)
    reads cells, set c | c in cells :: c.info, Touched(cmp)
  {
    && seen <= cells
    && Accounted(cmp, Items(cells)) && (cmp.ByData? ==> forall c | c in seen :: Cached(c.info))
    && (forall i | 0 <= i < |s| :: s[i] in cells)
    && (forall c | c in cells :: c.info in infos)
    && (cmp != Anything ==> forall c | c in cells :: key(c) == KeyOf(cmp, c.info))
    && (cmp == ByIdx(true) ==> forall c | c in seen :: Regenerated(c.info))
  }

  lemma RotatedSound(cmp: Cmp, key: Cell -> int, s: seq<Cell>, seen: set<Cell>, cells: set<Cell>, infos: set<Info>,
                     m: nat, psize: nat)
    requires m + psize < |s| && Sound(cmp, key, s, seen, cells, infos)
    ensures Sound(cmp, key, Rotated(s, m, psize), seen, cells, infos)
  {
    hide Rotated;
    var t := RotatedAt(s, m, psize);
  }

  /** Whether the comparison lets p go first. */
  method CompareCells(cmp: Cmp, p: Cell, q: Cell, ghost s: seq<Cell>, ghost seen0: set<Cell>, ghost key: Cell -> int,
                      ghost cells: set<Cell>, ghost infos: set<Info>)
    returns (first: bool, ghost seen: set<Cell>)
    requires p in cells && q in cells && Sound(cmp, key, s, seen0, cells, infos)
    modifies infos, Touched(cmp)
    ensures Kept(cmp, cells, infos) && seen == seen0 + {p, q} && Sound(cmp, key, s, seen, cells, infos)
    ensures cmp != Anything ==> first == (key(p) <= key(q))
  {
    hide KeyOf, Value, Accounted, Cached, Regenerated;
    seen := seen0 + {p, q};
    ghost var items := Items(cells);
    var c := Compare(cmp, p.info, q.info, items);
    assert Wiring(cells) == old(Wiring(cells)) && Items(cells) == items;
    assert cmp != Anything ==> Facts(cmp, infos) == old(Facts(cmp, infos));
    first := c <= 0;
  }

  /** Which run the next cell comes from. */
  method Choose(cmp: Cmp, psize: nat, qsize: nat, p: Cell?, q: Cell?, ghost s: seq<Cell>, ghost seen0: set<Cell>,
                ghost key: Cell -> int, ghost cells: set<Cell>, ghost infos: set<Info>)
    returns (fromP: bool, ghost seen: set<Cell>)
    requires psize > 0 || (qsize > 0 && q != null)
    requires (psize > 0 ==> p != null && p in cells) && (q != null ==> q in cells)
    requires Sound(cmp, key, s, seen0, cells, infos)
    modifies infos, Touched(cmp)
    ensures Kept(cmp, cells, infos) && seen0 <= seen && Sound(cmp, key, s, seen, cells, infos)
    ensures fromP ==> psize > 0
    ensures !fromP ==> qsize > 0 && q != null
    ensures psize > 0 && qsize > 0 && q != null ==> p in seen && q in seen
    ensures psize > 0 && qsize > 0 && q != null && cmp != Anything ==> fromP == (key(p) <= key(q))
  {
    hide Sound, Wiring, Facts;
    seen := seen0;
    if psize == 0 {
      fromP := false;
    } else if qsize == 0 || q == null {
      fromP := true;
    } else {
      fromP, seen := CompareCells(cmp, p, q, s, seen0, key, cells, infos);
    }
  }

  lemma MergingHeads(s: seq<Cell>, m: nat, psize: nat, list: Cell?, tail: Cell?, p: Cell?, q: Cell?,
                     cmp: Cmp, key: Cell -> int, seen: set<Cell>, cells: set<Cell>, infos: set<Info>)
    requires Merging(s, m, psize, list, tail, p, q) && Sound(cmp, key, s, seen, cells, infos)
    ensures m + psize <= |s| && (psize > 0 ==> p == s[m] && p in cells)
    ensures q == (if m + psize < |s| then s[m + psize] else null) && (q != null ==> q in cells)
    ensures (tail != null ==> tail in cells) && (m > 0 ==> list != null && tail != null)
  {
  }

  /** Take the next cell from the run chosen and append it to the merged list. */
  method Link(fromP: bool, list0: Cell?, tail0: Cell?, p0: Cell?, q0: Cell?, ghost s0: seq<Cell>, ghost m: nat,
              ghost psize: nat, ghost cmp: Cmp, ghost key: Cell -> int, ghost seen: set<Cell>, ghost cells: set<Cell>,
              ghost infos: set<Info>)
    returns (list: Cell?, tail: Cell?, p: Cell?, q: Cell?)
    requires if fromP then psize > 0 else q0 != null
    requires Merging(s0, m, psize, list0, tail0, p0, q0) && Sound(cmp, key, s0, seen, cells, infos)
    modifies cells`next
    ensures !fromP ==> m + psize < |s0|
    ensures var s := if fromP then s0 else Rotated(s0, m, psize);
            Merging(s, m + 1, if fromP then psize - 1 else psize, list, tail, p, q) &&
              Sound(cmp, key, s, seen, cells, infos)
    ensures Kept(cmp, cells, infos)
  {
    hide Merging, Rotated, KeyOf, Value, Settled, Account, Cached, Regenerated;
    MergingHeads(s0, m, psize, list0, tail0, p0, q0, cmp, key, seen, cells, infos);
    ghost var items := Items(cells);
    p, q := p0, q0;
    if fromP {
      list, tail, p := TakeP(s0, m, psize, list0, tail0, p0, q0);
    } else {
      list, tail, q := TakeQ(s0, m, psize, list0, tail0, p0, q0);
    }
    assert forall c | c in cells :: c.info == old(c.info);
    assert Items(cells) == items && Accounted(cmp, items);
    assert Sound(cmp, key, s0, seen, cells, infos);
    if !fromP { RotatedSound(cmp, key, s0, seen, cells, infos, m, psize); }
  }

  /** The first cells of two runs have been compared, if there are two runs. */
  ghost predicate HeadsSeen(s: seq<Cell>, m: nat, psize: nat, hi: nat, seen: set<Cell>)
    requires hi <= |s|
  {
    psize > 0 && m + psize < hi ==> s[m] in seen && s[m + psize] in seen
  }

  /** One turn of the inner loop: a cell goes behind what is merged already.  Where the merge
      of the two runs began is `begin`, `mb` and `pb`. */
  method MergeStep(cmp: Cmp, list0: Cell?, tail0: Cell?, p0: Cell?, q0: Cell?, psize0: nat, qsize0: nat,
                   ghost begin: seq<Cell>, ghost mb: nat, ghost pb: nat, ghost hi: nat,
                   ghost s0: seq<Cell>, ghost m: nat, ghost seen0: set<Cell>, ghost key: Cell -> int,
                   ghost cells: set<Cell>, ghost infos: set<Info>)
    returns (list: Cell?, tail: Cell?, p: Cell?, q: Cell?, psize: nat, qsize: nat, ghost s: seq<Cell>,
             ghost seen: set<Cell>)
    requires psize0 > 0 || (qsize0 > 0 && q0 != null)
    requires Merging(s0, m, psize0, list0, tail0, p0, q0) && Sound(cmp, key, s0, seen0, cells, infos)
    requires Progress(cmp != Anything, key, begin, mb, pb, hi, s0, m, psize0) && hi == Min(m + psize0 + qsize0, |s0|)
    modifies cells, infos, Touched(cmp)
    ensures psize + qsize == psize0 + qsize0 - 1 && |s| == |s0| && hi == Min(m + 1 + psize + qsize, |s|)
    ensures Merging(s, m + 1, psize, list, tail, p, q)
    ensures Progress(cmp != Anything, key, begin, mb, pb, hi, s, m + 1, psize)
    ensures Kept(cmp, cells, infos) && seen0 <= seen && Sound(cmp, key, s, seen, cells, infos)
    ensures HeadsSeen(s0, m, psize0, hi, seen)
  {
    hide Progress, Merging, Sound, Wiring, Facts, Rotated;
    MergingHeads(s0, m, psize0, list0, tail0, p0, q0, cmp, key, seen0, cells, infos);
    var fromP;
    fromP, seen := Choose(cmp, psize0, qsize0, p0, q0, s0, seen0, key, cells, infos);
    list, tail, p, q := Link(fromP, list0, tail0, p0, q0, s0, m, psize0, cmp, key, seen, cells, infos);
    psize, qsize, s := psize0, qsize0, s0;
    if fromP {
      ProgressP(cmp != Anything, key, begin, mb, pb, hi, s0, m, psize0);
      psize := psize - 1;
    } else {
      ProgressQ(cmp != Anything, key, begin, mb, pb, hi, s0, m, psize0);
      s := Rotated(s0, m, psize0);
      qsize := qsize - 1;
    }
  }

  /** The inner loop of the sort: merge the run of psize cells from p with the run of
      at most qsize cells from q, behind what is merged already. */
  method MergeTwo(cmp: Cmp, list0: Cell?, tail0: Cell?, p0: Cell?, q0: Cell?, psize0: nat, qsize0: nat,
                  ghost s0: seq<Cell>, ghost m0: nat, ghost seen0: set<Cell>, ghost key: Cell -> int,
                  ghost cells: set<Cell>, ghost infos: set<Info>)
    returns (list: Cell?, tail: Cell?, q: Cell?, ghost s: seq<Cell>, ghost seen: set<Cell>)
    requires Merging(s0, m0, psize0, list0, tail0, p0, q0) && Sound(cmp, key, s0, seen0, cells, infos)
    modifies cells, infos, Touched(cmp)
    ensures var hi := Min(m0 + psize0 + qsize0, |s0|);
            && Merging(s, hi, 0, list, tail, q, q)
            && Progress(cmp != Anything, key, s0, m0, psize0, hi, s, hi, 0)
            && HeadsSeen(s0, m0, psize0, hi, seen)
    ensures Kept(cmp, cells, infos) && seen0 <= seen && Sound(cmp, key, s, seen, cells, infos)
  {
    hide Progress, Merging, Sound, Wiring, Facts, HeadsSeen, Min;
    list, tail, q, s, seen := list0, tail0, q0, s0, seen0;
    var p, psize: nat, qsize: nat := p0, psize0, qsize0;
    ghost var m: nat, hi: nat := m0, Min(m0 + psize0 + qsize0, |s0|);
    MinFacts(m0 + psize0 + qsize0, |s0|);
    MergingHeads(s, m, psize, list, tail, p, q, cmp, key, seen, cells, infos);
    ProgressStart(cmp != Anything, key, s0, m0, psize0, hi);
    while psize > 0 || (qsize > 0 && q != null)
      invariant Merging(s, m, psize, list, tail, p, q) && m0 <= m && |s| == |s0|
      invariant hi == Min(m + psize + qsize, |s|)
      invariant Progress(cmp != Anything, key, s0, m0, psize0, hi, s, m, psize)
      invariant Kept(cmp, cells, infos) && seen0 <= seen && Sound(cmp, key, s, seen, cells, infos)
      invariant m == m0 ==> s == s0 && psize == psize0
      invariant m > m0 ==> HeadsSeen(s0, m0, psize0, hi, seen)
      decreases psize + qsize
    {
      ghost var before := seen;
      list, tail, p, q, psize, qsize, s, seen :=
        MergeStep(cmp, list, tail, p, q, psize, qsize, s0, m0, psize0, hi, s, m, seen, key, cells, infos);
      HeadsStaySeen(s0, m0, psize0, hi, before, seen);
      m := m + 1;
    }
    NoHeads(s0, m0, hi, seen);
    MergingDone(s, m, qsize, list, tail, p, q);
  }

  lemma MinFacts(a: nat, b: nat)
    ensures Min(a, b) <= a && Min(a, b) <= b && (Min(a, b) == a || Min(a, b) == b)
  {
  }

  lemma HeadsStaySeen(s: seq<Cell>, m: nat, psize: nat, hi: nat, seen: set<Cell>, seen': set<Cell>)
    requires hi <= |s| && seen <= seen'
    ensures HeadsSeen(s, m, psize, hi, seen) ==> HeadsSeen(s, m, psize, hi, seen')
  {
  }

  lemma NoHeads(s: seq<Cell>, m: nat, hi: nat, seen: set<Cell>)
    requires hi <= |s|
    ensures HeadsSeen(s, m, 0, hi, seen)
  {
  }

  lemma MergingDone(s: seq<Cell>, m: nat, qsize: nat, list: Cell?, tail: Cell?, p: Cell?, q: Cell?)
    requires Merging(s, m, 0, list, tail, p, q) && (qsize == 0 || q == null)
    ensures m == Min(m + qsize, |s|) && Merging(s, m, 0, list, tail, q, q)
  {
  }

  // ---- one pass over the list

  /** Runs of w elements, the last perhaps shorter. */
  predicate Sized<T>(runs: seq<seq<T>>, w: nat) {
    forall i | 0 <= i < |runs| :: 1 <= |runs[i]| <= w && (i < |runs| - 1 ==> |runs[i]| == w)
  }

  ghost predicate RunSeen(run: seq<Cell>, seen: set<Cell>) {
    |run| > 1 ==> forall j | 0 <= j < |run| :: run[j] in seen
  }

  /** The runs a pass has still to merge after n merges. */
  function Rest<T>(runs: seq<seq<T>>, n: nat): seq<seq<T>> {
    runs[Min(2 * n, |runs|)..]
  }

  ghost predicate PassSizes<T>(w: nat, runs: seq<seq<T>>, n: nat, done: seq<seq<T>>) {
    |done| == n && forall i | 0 <= i < n ::
      1 <= |done[i]| <= 2 * w && (i < n - 1 || 2 * n < |runs| ==> |done[i]| == 2 * w)
  }

  /** After n merges of a pass: `done` holds the merged runs, the other runs are untouched. */
  ghost predicate PassInv<T>(exact: bool, key: T -> int, w: nat, runs: seq<seq<T>>, n: nat, done: seq<seq<T>>,
                             s: seq<T>) {
    && s == Flatten(done) + Flatten(Rest(runs, n))
    && multiset(s) == multiset(Flatten(runs))
    && (exact ==> done + PairUp(Rest(runs, n), key) == PairUp(runs, key))
    && PassSizes(w, runs, n, done)
  }

  lemma {:induction false} FlattenSized<T>(runs: seq<seq<T>>, w: nat)
    requires Sized(runs, w)
    ensures |runs| > 0 ==> |Flatten(runs)| > 0
    ensures |runs| > 1 ==> |Flatten(runs)| > w
  {
    if |runs| > 1 {
      assert Sized(runs[1..], w);
      FlattenSized(runs[1..], w);
    }
  }

  /** Where the two runs of the next merge are. */
  lemma NextRuns<T>(runs: seq<seq<T>>, w: nat, x: nat, front: seq<T>, s: seq<T>)
    requires Sized(runs, w) && x < |runs| && s == front + Flatten(runs[x..])
    ensures var m := |front|;
            var psize := Min(w, |s| - m);
            var hi := Min(m + psize + w, |s|);
            && m < |s| && psize == |runs[x]| && s[m..m + psize] == runs[x]
            && s[m + psize..hi] == (if x + 1 < |runs| then runs[x + 1] else [])
            && s[hi..] == Flatten(runs[Min(x + 2, |runs|)..])
            && 1 <= hi - m <= 2 * w && (x + 2 < |runs| ==> hi - m == 2 * w)
  {
    var tail := runs[x + 1..];
    assert runs[x..][1..] == tail;
    assert Flatten(runs[x..]) == runs[x] + Flatten(tail);
    assert Sized(tail, w);
    FlattenSized(tail, w);
    if tail != [] {
      assert tail[1..] == runs[x + 2..];
      assert Sized(tail[1..], w);
      FlattenSized(tail[1..], w);
      assert Flatten(tail) == runs[x + 1] + Flatten(runs[x + 2..]);
    }
  }

  /** Where a pass is when it starts its next merge. */
  ghost predicate AtMerge<T>(w: nat, runs: seq<seq<T>>, n: nat, done: seq<seq<T>>, s: seq<T>, m: nat, psize: nat,
                             hi: nat) {
    && 2 * n < |runs| && Sized(runs, w)
    && s == Flatten(done) + Flatten(Rest(runs, n))
    && m == |Flatten(done)| && psize == Min(w, |s| - m) && hi == Min(m + psize + w, |s|)
  }

  lemma AtMergeRuns<T>(w: nat, runs: seq<seq<T>>, n: nat, done: seq<seq<T>>, s: seq<T>, m: nat, psize: nat, hi: nat)
    requires AtMerge(w, runs, n, done, s, m, psize, hi)
    ensures 2 * n < |runs| && m < m + psize <= hi <= |s| && s[..m] == Flatten(done)
    ensures s[m..m + psize] == runs[2 * n] && s[m + psize..hi] == (if 2 * n + 1 < |runs| then runs[2 * n + 1] else [])
    ensures s[hi..] == Flatten(Rest(runs, n + 1))
    ensures 1 <= hi - m <= 2 * w && (2 * n + 2 < |runs| ==> hi - m == 2 * w)
  {
    hide Flatten, Sized;
    NextRuns(runs, w, 2 * n, Flatten(done), s);
  }

  /** One merge of the pass. */
  lemma PassStep<T>(exact: bool, key: T -> int, w: nat, runs: seq<seq<T>>, n: nat, done: seq<seq<T>>,
                 s: seq<T>, m: nat, psize: nat, hi: nat, s': seq<T>)
    requires PassInv(exact, key, w, runs, n, done, s) && AtMerge(w, runs, n, done, s, m, psize, hi)
    requires m + psize <= hi <= |s| == |s'| && Progress(exact, key, s, m, psize, hi, s', hi, 0)
    ensures PassInv(exact, key, w, runs, n + 1, done + [s'[m..hi]], s')
    ensures hi == |Flatten(done + [s'[m..hi]])|
  {
    hide AtMerge, Outcome, Around, Merge, Flatten, PairUp, PassSizes, Sized, Rest;
    AtMergeRuns(w, runs, n, done, s, m, psize, hi);
    PassShape(runs, n, done, s, m, hi, s');
    SizesStep(w, runs, n, done, s'[m..hi]);
    if exact { PairStep(key, runs, n, done, s'[m..hi], s, m, psize, hi, s'); }
  }

  lemma SizesStep<T>(w: nat, runs: seq<seq<T>>, n: nat, done: seq<seq<T>>, block: seq<T>)
    requires PassSizes(w, runs, n, done) && 2 * n < |runs|
    requires 1 <= |block| <= 2 * w && (2 * n + 2 < |runs| ==> |block| == 2 * w)
    ensures PassSizes(w, runs, n + 1, done + [block])
  {
  }

  lemma PairStep<T>(key: T -> int, runs: seq<seq<T>>, n: nat, done: seq<seq<T>>, block: seq<T>,
                    s: seq<T>, m: nat, psize: nat, hi: nat, s': seq<T>)
    requires 2 * n < |runs| && m + psize <= hi <= |s| == |s'| && block == s'[m..hi]
    requires s[m..m + psize] == runs[2 * n] && s[m + psize..hi] == (if 2 * n + 1 < |runs| then runs[2 * n + 1] else [])
    requires Outcome(key, s', m, hi, 0, hi) == Outcome(key, s, m, m, psize, hi)
    ensures done + [block] + PairUp(Rest(runs, n + 1), key) == done + PairUp(Rest(runs, n), key)
  {
    hide PairUp, Outcome;
    PairNext(key, runs, 2 * n, block, s, m, psize, hi, s');
    var rest := PairUp(Rest(runs, n + 1), key);
    assert done + ([block] + rest) == done + [block] + rest;
  }

  lemma PassShape<T>(runs: seq<seq<T>>, n: nat, done: seq<seq<T>>, s: seq<T>, m: nat, hi: nat, s': seq<T>)
    requires m == |Flatten(done)| && Around(s, m, hi, s') && s[..m] == Flatten(done) &&
             s[hi..] == Flatten(Rest(runs, n + 1))
    ensures s' == Flatten(done + [s'[m..hi]]) + Flatten(Rest(runs, n + 1)) && hi == |Flatten(done + [s'[m..hi]])|
    ensures multiset(s') == multiset(s)
  {
    hide Flatten;
    var block := s'[m..hi];
    FlattenAppend(done, [block]);
    FlattenOne(block);
    assert s' == s'[..m] + block + s'[hi..];
    assert s == s[..m] + s[m..hi] + s[hi..];
  }

  lemma OutcomeEnds<T>(key: T -> int, s: seq<T>, m: nat, psize: nat, hi: nat)
    requires m + psize <= hi <= |s|
    ensures Outcome(key, s, m, hi, 0, hi) == s[m..hi]
    ensures Outcome(key, s, m, m, psize, hi) == Merge(s[m..m + psize], s[m + psize..hi], key)
  {
    assert s[hi..hi] == [] && s[m..m] == [];
  }

  lemma PairNext<T>(key: T -> int, runs: seq<seq<T>>, x: nat, block: seq<T>, s: seq<T>, m: nat, psize: nat, hi: nat,
                    s': seq<T>)
    requires x < |runs| && m + psize <= hi <= |s| == |s'| && block == s'[m..hi]
    requires s[m..m + psize] == runs[x] && s[m + psize..hi] == (if x + 1 < |runs| then runs[x + 1] else [])
    requires Outcome(key, s', m, hi, 0, hi) == Outcome(key, s, m, m, psize, hi)
    ensures PairUp(runs[x..], key) == [block] + PairUp(runs[Min(x + 2, |runs|)..], key)
  {
    hide Outcome;
    OutcomeEnds(key, s, m, psize, hi);
    OutcomeEnds(key, s', m, 0, hi);
    if x + 1 < |runs| {
      assert runs[x..][2..] == runs[x + 2..];
    } else {
      assert runs[x..] == [runs[x]];
    }
  }

  /** Every element of a merged block has been compared, if the block has more than one. */
  lemma BlockSeen(first: seq<Cell>, second: seq<Cell>, block: seq<Cell>, seen: set<Cell>)
    requires RunSeen(first, seen) && RunSeen(second, seen) && multiset(block) == multiset(first + second)
    requires first != [] && (second != [] ==> first[0] in seen && second[0] in seen)
    ensures RunSeen(block, seen)
  {
    assert |block| == |multiset(block)| == |first| + |second|;
    if |block| > 1 {
      forall j | 0 <= j < |block| ensures block[j] in seen {
        assert block[j] in multiset(first + second);
        assert block[j] in first || block[j] in second;
      }
    }
  }

  lemma NextCell(s: seq<Cell>, m: nat, k: nat, list: Cell?, tail: Cell?, p: Cell?)
    requires Merging(s, m, 0, list, tail, p, p) && m <= k < |s|
    ensures s[k].next == if k + 1 < |s| then s[k + 1] else null
  {
  }

  lemma Advance(s: seq<Cell>, m: nat, psize: nat, list: Cell?, tail: Cell?, p: Cell?)
    requires Merging(s, m, 0, list, tail, p, p) && m + psize <= |s|
    ensures Merging(s, m, psize, list, tail, p, if m + psize < |s| then s[m + psize] else null)
  {
  }

  /** Step insize places along from p, or to the end of the list. */
  method StepAlong(p: Cell, insize: nat, ghost s: seq<Cell>, ghost m: nat, ghost list: Cell?, ghost tail: Cell?)
    returns (psize: nat, q: Cell?)
    requires insize > 0 && m < |s| && p == s[m] && Merging(s, m, 0, list, tail, p, p)
    ensures psize == Min(insize, |s| - m) && Merging(s, m, psize, list, tail, p, q)
  {
    hide Merging;
    q := p;
    psize := 0;
    var i := 0;
    while i < insize
      invariant 0 <= i <= insize && psize == i && m + i < |s| && q == s[m + i]
    {
      NextCell(s, m, m + i, list, tail, p);
      psize := psize + 1;
      q := q.next;
      if q == null { break; }
      i := i + 1;
    }
    Advance(s, m, psize, list, tail, p);
  }

  /** A null-terminated chain of distinct cells. */
  ghost predicate IsList(head: Cell?, s: seq<Cell>)
    reads s
  {
    NoRepeats(s) && Tail(s, 0) && head == if s == [] then null else s[0]
  }

  ghost predicate RunsSeen(runs: seq<seq<Cell>>, seen: set<Cell>) {
    forall i | 0 <= i < |runs| :: RunSeen(runs[i], seen)
  }

  lemma MergedSeen(runs: seq<seq<Cell>>, w: nat, n: nat, done: seq<seq<Cell>>, s: seq<Cell>, m: nat, psize: nat,
                   hi: nat, s': seq<Cell>, seen: set<Cell>, seen': set<Cell>)
    requires AtMerge(w, runs, n, done, s, m, psize, hi) && Around(s, m, hi, s')
    requires RunsSeen(runs, seen) && RunsSeen(done, seen) && seen <= seen'
    requires m + psize <= hi <= |s| && (psize > 0 && m + psize < hi ==> s[m] in seen' && s[m + psize] in seen')
    ensures RunsSeen(done + [s'[m..hi]], seen')
  {
    hide AtMerge, RunSeen, Around, Flatten, Rest;
    AtMergeRuns(w, runs, n, done, s, m, psize, hi);
    var first, second := s[m..m + psize], s[m + psize..hi];
    assert RunSeen(first, seen) by { assert first == runs[2 * n]; }
    assert RunSeen(second, seen) by {
      if second == [] { NoneSeen(seen); } else { assert second == runs[2 * n + 1]; }
    }
    MergedBlockSeen(s, m, psize, hi, s', seen, seen');
    forall i | 0 <= i < |done| ensures RunSeen(done[i], seen') { SeenGrows(done[i], seen, seen'); }
  }

  lemma MergedBlockSeen(s: seq<Cell>, m: nat, psize: nat, hi: nat, s': seq<Cell>, seen: set<Cell>, seen': set<Cell>)
    requires m < m + psize <= hi <= |s| && Around(s, m, hi, s') && seen <= seen'
    requires RunSeen(s[m..m + psize], seen) && RunSeen(s[m + psize..hi], seen)
    requires m + psize < hi ==> s[m] in seen' && s[m + psize] in seen'
    ensures RunSeen(s'[m..hi], seen')
  {
    hide RunSeen;
    var first, second := s[m..m + psize], s[m + psize..hi];
    SeenGrows(first, seen, seen');
    SeenGrows(second, seen, seen');
    assert first + second == s[m..hi];
    assert second != [] ==> first[0] == s[m] && second[0] == s[m + psize];
    BlockSeen(first, second, s'[m..hi], seen');
  }

  lemma NoneSeen(seen: set<Cell>)
    ensures RunSeen([], seen)
  {
  }

  lemma SeenGrows(run: seq<Cell>, seen: set<Cell>, seen': set<Cell>)
    requires RunSeen(run, seen) && seen <= seen'
    ensures RunSeen(run, seen')
  {
  }

  lemma NothingPassed(exact: bool, key: Cell -> int, w: nat, runs: seq<seq<Cell>>, s: seq<Cell>)
    requires s == Flatten(runs)
    ensures PassInv(exact, key, w, runs, 0, [], s) && |Flatten<Cell>([])| == 0
  {
    hide *;
    NoneDone(runs, w);
    assert [] + PairUp(runs, key) == PairUp(runs, key) && [] + s == s;
    PassInvIs(exact, key, w, runs, s);
  }

  lemma NoneDone(runs: seq<seq<Cell>>, w: nat)
    ensures Rest(runs, 0) == runs && Flatten<Cell>([]) == [] && PassSizes(w, runs, 0, [])
  {
  }

  lemma PassInvIs(exact: bool, key: Cell -> int, w: nat, runs: seq<seq<Cell>>, s: seq<Cell>)
    requires s == Flatten([]) + Flatten(Rest(runs, 0)) && multiset(s) == multiset(Flatten(runs))
    requires [] + PairUp(Rest(runs, 0), key) == PairUp(runs, key) && PassSizes(w, runs, 0, [])
    ensures PassInv(exact, key, w, runs, 0, [], s)
  {
    hide Flatten, Rest, PairUp, PassSizes;
  }

  lemma NothingMerged(s: seq<Cell>, head: Cell?)
    requires IsList(head, s)
    ensures Merging(s, 0, 0, null, null, head, head)
  {
  }

  lemma PassStart(exact: bool, key: Cell -> int, w: nat, runs: seq<seq<Cell>>, s: seq<Cell>, seen: set<Cell>,
                  head: Cell?)
    requires s == Flatten(runs) && IsList(head, s)
    ensures PassInv(exact, key, w, runs, 0, [], s) && |Flatten<Cell>([])| == 0 && RunsSeen([], seen)
    ensures Merging(s, 0, 0, null, null, head, head)
  {
    hide PairUp, PassInv, Merging, IsList, Flatten;
    NothingPassed(exact, key, w, runs, s);
    NothingMerged(s, head);
  }

  /** The pass is over exactly when no run is left. */
  lemma PassHead(exact: bool, key: Cell -> int, w: nat, runs: seq<seq<Cell>>, n: nat, done: seq<seq<Cell>>,
                 s: seq<Cell>, list: Cell?, tail: Cell?, p: Cell?)
    requires PassInv(exact, key, w, runs, n, done, s) && Sized(runs, w)
    requires Merging(s, |Flatten(done)|, 0, list, tail, p, p)
    ensures p != null <==> 2 * n < |runs|
    ensures p != null ==> |Flatten(done)| < |s| && p == s[|Flatten(done)|]
    ensures p == null ==> |Flatten(done)| == |s|
    ensures 2 * n < |runs| ==>
              var psize := Min(w, |s| - |Flatten(done)|);
              AtMerge(w, runs, n, done, s, |Flatten(done)|, psize, Min(|Flatten(done)| + psize + w, |s|))
  {
    assert Sized(Rest(runs, n), w);
    FlattenSized(Rest(runs, n), w);
  }

  lemma PassEnd(exact: bool, key: Cell -> int, w: nat, runs: seq<seq<Cell>>, n: nat, done: seq<seq<Cell>>, s: seq<Cell>)
    requires PassInv(exact, key, w, runs, n, done, s) && 2 * n >= |runs| && |s| == |Flatten(done)|
    ensures s == Flatten(done) && Sized(done, 2 * w) && |done| == n && multiset(s) == multiset(Flatten(runs))
    ensures exact ==> done == PairUp(runs, key)
  {
    assert Rest(runs, n) == [];
    assert done + [] == done;
  }

  /** The null pointer at the end of the merged list. */
  method Terminate(tail: Cell, ghost list: Cell?, ghost s: seq<Cell>)
    requires s != [] && Merging(s, |s|, 0, list, tail, null, null)
    modifies tail`next
    ensures IsList(list, s)
  {
    tail.next := null;
  }

  lemma MergeCount(exact: bool, key: Cell -> int, w: nat, runs: seq<seq<Cell>>, n: nat, done: seq<seq<Cell>>,
                   s: seq<Cell>, m: nat, psize: nat, hi: nat)
    requires PassInv(exact, key, w, runs, n, done, s) && AtMerge(w, runs, n, done, s, m, psize, hi)
    ensures m <= hi <= |s| && |done| == n && 2 * n < |runs|
  {
    hide Flatten, PairUp, Sized;
  }

  lemma PassRound(exact: bool, key: Cell -> int, w: nat, runs: seq<seq<Cell>>, n: nat, done: seq<seq<Cell>>,
                  s: seq<Cell>, m: nat, psize: nat, hi: nat, s': seq<Cell>, seen0: set<Cell>, seen: set<Cell>,
                  seen': set<Cell>)
    requires PassInv(exact, key, w, runs, n, done, s) && AtMerge(w, runs, n, done, s, m, psize, hi)
    requires Progress(exact, key, s, m, psize, hi, s', hi, 0)
    requires RunsSeen(runs, seen0) && RunsSeen(done, seen) && seen0 <= seen <= seen'
    requires psize > 0 && m + psize < hi ==> m + psize < |s| && s[m] in seen' && s[m + psize] in seen'
    ensures m <= hi <= |s'| && |done| == n && 2 * n < |runs|
    ensures PassInv(exact, key, w, runs, n + 1, done + [s'[m..hi]], s')
    ensures hi == |Flatten(done + [s'[m..hi]])|
    ensures RunsSeen(done + [s'[m..hi]], seen')
  {
    hide Flatten, PairUp, PassInv, AtMerge, Sized;
    MergeCount(exact, key, w, runs, n, done, s, m, psize, hi);
    PassStep(exact, key, w, runs, n, done, s, m, psize, hi, s');
    forall i | 0 <= i < |runs| ensures RunSeen(runs[i], seen) { SeenGrows(runs[i], seen0, seen); }
    MergedSeen(runs, w, n, done, s, m, psize, hi, s', seen, seen');
  }

  /** One round of a pass: find the end of the next run, merge it with the one after it. */
  method MergeRound(cmp: Cmp, insize: nat, list0: Cell?, tail0: Cell?, p: Cell, ghost runs: seq<seq<Cell>>,
                    ghost n: nat, ghost done0: seq<seq<Cell>>, ghost s0: seq<Cell>, ghost seenRuns: set<Cell>,
                    ghost seen0: set<Cell>, ghost key: Cell -> int, ghost cells: set<Cell>, ghost infos: set<Info>)
    returns (list: Cell?, tail: Cell?, q: Cell?, ghost s: seq<Cell>, ghost done: seq<seq<Cell>>, ghost seen: set<Cell>)
    requires insize > 0 && Sized(runs, insize) && RunsSeen(runs, seenRuns) && seenRuns <= seen0
    requires PassInv(cmp != Anything, key, insize, runs, n, done0, s0) && RunsSeen(done0, seen0)
    requires Merging(s0, |Flatten(done0)|, 0, list0, tail0, p, p) && Sound(cmp, key, s0, seen0, cells, infos)
    modifies cells, infos, Touched(cmp)
    ensures 2 * n < |runs| && PassInv(cmp != Anything, key, insize, runs, n + 1, done, s) && RunsSeen(done, seen)
    ensures Merging(s, |Flatten(done)|, 0, list, tail, q, q)
    ensures Kept(cmp, cells, infos) && seen0 <= seen && Sound(cmp, key, s, seen, cells, infos)
  {
    hide Merging, Sound, Wiring, Facts, Progress, Flatten, PairUp, RunsSeen, Sized, PassInv, AtMerge;
    PassHead(cmp != Anything, key, insize, runs, n, done0, s0, list0, tail0, p);
    ghost var m := |Flatten(done0)|;
    var psize;
    psize, q := StepAlong(p, insize, s0, m, list0, tail0);
    list, tail, q, s, seen := MergeTwo(cmp, list0, tail0, p, q, psize, insize, s0, m, seen0, key, cells, infos);
    ghost var hi := Min(m + psize + insize, |s0|);
    PassRound(cmp != Anything, key, insize, runs, n, done0, s0, m, psize, hi, s, seenRuns, seen0, seen);
    done := done0 + [s[m..hi]];
  }

  /** One pass of the sort over the runs of insize cells. */
  method MergePass(cmp: Cmp, list0: Cell, insize: nat, ghost s0: seq<Cell>, ghost runs: seq<seq<Cell>>,
                   ghost seen0: set<Cell>, ghost key: Cell -> int, ghost cells: set<Cell>, ghost infos: set<Info>)
    returns (list: Cell?, tail: Cell?, nmerges: nat, ghost s: seq<Cell>, ghost done: seq<seq<Cell>>,
             ghost seen: set<Cell>)
    requires insize > 0 && IsList(list0, s0) && s0 == Flatten(runs) && Sized(runs, insize) && RunsSeen(runs, seen0)
    requires Sound(cmp, key, s0, seen0, cells, infos)
    modifies cells, infos, Touched(cmp)
    ensures Merging(s, |s|, 0, list, tail, null, null)
    ensures s == Flatten(done) && Sized(done, 2 * insize) && RunsSeen(done, seen)
    ensures |done| == nmerges == (|runs| + 1) / 2 && multiset(s) == multiset(s0)
    ensures cmp != Anything ==> done == PairUp(runs, key)
    ensures Kept(cmp, cells, infos) && seen0 <= seen && Sound(cmp, key, s, seen, cells, infos)
  {
    hide Merging, Sound, Wiring, Facts, Flatten, PairUp, RunsSeen, Sized, PassInv;
    PassStart(cmp != Anything, key, insize, runs, s0, seen0, list0);
    var p: Cell? := list0;
    list, tail, nmerges, s, done, seen := null, null, 0, s0, [], seen0;
    while p != null
      invariant Merging(s, |Flatten(done)|, 0, list, tail, p, p)
      invariant PassInv(cmp != Anything, key, insize, runs, nmerges, done, s) && 2 * nmerges <= |runs| + 1
      invariant RunsSeen(done, seen)
      invariant Kept(cmp, cells, infos) && seen0 <= seen && Sound(cmp, key, s, seen, cells, infos)
      decreases |runs| - 2 * nmerges
    {
      list, tail, p, s, done, seen :=
        MergeRound(cmp, insize, list, tail, p, runs, nmerges, done, s, seen0, seen, key, cells, infos);
      nmerges := nmerges + 1;
    }
    PassHead(cmp != Anything, key, insize, runs, nmerges, done, s, list, tail, p);
    PassEnd(cmp != Anything, key, insize, runs, nmerges, done, s);
  }

  // ---- the sort

  lemma SinglesRuns(s: seq<Cell>, seen: set<Cell>)
    ensures Flatten(Singles(s)) == s && Sized(Singles(s), 1) && RunsSeen(Singles(s), seen)
  {
    FlattenSingles(s);
  }

  /** With one run left the list is sorted and every cell has been compared. */
  lemma OneRun(runs: seq<seq<Cell>>, s: seq<Cell>, seen: set<Cell>)
    requires |runs| == 1 && s == Flatten(runs) && RunsSeen(runs, seen)
    ensures s == runs[0] && RunSeen(s, seen)
  {
    FlattenOne(runs[0]);
    assert runs == [runs[0]];
  }

  /** core_list_mergesort, for any non-empty list.  Whatever the comparison, the result
      is a list of the same cells, and from two cells on every one has been compared;
      with keys, it is the stable sort; and by data the results are those of the log. */
  method Mergesort(head: Cell, cmp: Cmp, ghost s0: seq<Cell>, ghost key: Cell -> int, ghost cells: set<Cell>,
                   ghost infos: set<Info>)
    returns (list: Cell, ghost s: seq<Cell>, ghost seen: set<Cell>)
    requires IsList(head, s0) && Sound(cmp, key, s0, {}, cells, infos)
    modifies cells, infos, Touched(cmp)
    ensures IsList(list, s) && multiset(s) == multiset(s0) && s0 != []
    ensures cmp != Anything ==> s == MergeSort(s0, key)
    ensures Kept(cmp, cells, infos) && Sound(cmp, key, s, seen, cells, infos) && RunSeen(s, seen)
    ensures Accounted(cmp, Items(cells)) && (cmp.ByData? ==> cmp.res.start == old(cmp.res.start))
    ensures cmp.ByData? && |s| > 1 ==> forall i | 0 <= i < |s| :: Cached(s[i].info)
  {
    hide Merging, Sound, Wiring, Facts, Flatten, PairUp, RunsSeen, Sized, RunSeen, Singles, NoRepeats, Tail, Accounted,
         Cached;
    var insize := 1;
    ghost var runs := Singles(s0);
    SinglesRuns(s0, {});
    list, s, seen := head, s0, {};
    while true
      invariant insize > 0 && IsList(list, s) && s == Flatten(runs) && multiset(s) == multiset(s0)
      invariant Sized(runs, insize) && RunsSeen(runs, seen) && runs != []
      invariant cmp != Anything ==> MergeAll(runs, key) == MergeSort(s0, key)
      invariant Kept(cmp, cells, infos) && Sound(cmp, key, s, seen, cells, infos)
      decreases |runs|
    {
      var l, tail, nmerges;
      l, tail, nmerges, s, runs, seen := MergePass(cmp, list, insize, s, runs, seen, key, cells, infos);
      list := FinishPass(l, tail, s, cmp, key, seen, cells, infos);
      if nmerges <= 1 {
        OneRun(runs, s, seen);
        break;
      }
      insize := insize * 2;
    }
    Settlement(cmp, key, s, seen, cells, infos);
  }

  /** What is left of a sort by data: the account, and every cell cached. */
  lemma Settlement(cmp: Cmp, key: Cell -> int, s: seq<Cell>, seen: set<Cell>, cells: set<Cell>, infos: set<Info>)
    requires Sound(cmp, key, s, seen, cells, infos) && RunSeen(s, seen)
    ensures Accounted(cmp, Items(cells))
    ensures cmp.ByData? && |s| > 1 ==> forall i | 0 <= i < |s| :: Cached(s[i].info)
  {
    hide Accounted, Cached, KeyOf;
  }

  /** tail->next = NULL. */
  method FinishPass(list: Cell?, tail: Cell?, ghost s: seq<Cell>, ghost cmp: Cmp, ghost key: Cell -> int,
                    ghost seen: set<Cell>, ghost cells: set<Cell>, ghost infos: set<Info>)
    returns (head: Cell)
    requires s != [] && Merging(s, |s|, 0, list, tail, null, null) && Sound(cmp, key, s, seen, cells, infos)
    modifies cells`next
    ensures IsList(head, s) && Kept(cmp, cells, infos) && Sound(cmp, key, s, seen, cells, infos)
  {
    hide Merging, IsList, Settled, Account, Cached, KeyOf, Value;
    MergingHeads(s, |s|, 0, list, tail, null, null, cmp, key, seen, cells, infos);
    ghost var items := Items(cells);
    Terminate(tail, list, s);
    head := list;
    assert forall c | c in cells :: c.info == old(c.info);
    assert Items(cells) == items && Accounted(cmp, items);
  }
}
