/** core_state.c: the block of numbers, the benchmark that scans it, corrupts it, scans it
    again and undoes the corruption. */
module StateBench {
  import opened Powers
  import opened Scanner
  import Crc16

  const COMMA: Byte := 0x2C

  // ---- filling the block

  /** ee_s16.  A mask of its low bits is a Euclidean remainder, and a right shift rounds towards
      minus infinity. */
  type Int16 = x: int | -0x8000 <= x < 0x8000

  function IntPattern(k: nat): seq<Byte> {
    if k == 0 then [0x35, 0x30, 0x31, 0x32]
    else if k == 1 then [0x31, 0x32, 0x33, 0x34]
    else if k == 2 then [0x2D, 0x38, 0x37, 0x34]
    else [0x2B, 0x31, 0x32, 0x32]
  }

  function FloatPattern(k: nat): seq<Byte> {
    if k == 0 then [0x33, 0x35, 0x2E, 0x35, 0x34, 0x34, 0x30, 0x30]
    else if k == 1 then [0x2E, 0x31, 0x32, 0x33, 0x34, 0x35, 0x30, 0x30]
    else if k == 2 then [0x2D, 0x31, 0x31, 0x30, 0x2E, 0x37, 0x30, 0x30]
    else [0x2B, 0x30, 0x2E, 0x36, 0x34, 0x34, 0x30, 0x30]
  }

  function ScientificPattern(k: nat): seq<Byte> {
    if k == 0 then [0x35, 0x2E, 0x35, 0x30, 0x30, 0x65, 0x2B, 0x33]
    else if k == 1 then [0x2D, 0x2E, 0x31, 0x32, 0x33, 0x65, 0x2D, 0x32]
    else if k == 2 then [0x2D, 0x38, 0x37, 0x65, 0x2B, 0x38, 0x33, 0x32]
    else [0x2B, 0x30, 0x2E, 0x36, 0x65, 0x2D, 0x31, 0x32]
  }

  function ErrorPattern(k: nat): seq<Byte> {
    if k == 0 then [0x54, 0x30, 0x2E, 0x33, 0x65, 0x2D, 0x31, 0x46]
    else if k == 1 then [0x2D, 0x54, 0x2E, 0x54, 0x2B, 0x2B, 0x54, 0x71]
    else if k == 2 then [0x31, 0x54, 0x33, 0x2E, 0x34, 0x65, 0x34, 0x7A]
    else [0x33, 0x34, 0x2E, 0x30, 0x65, 0x2D, 0x54, 0x5E]
  }

  /** The pattern that a seed selects. */
  function Pattern(seed: Int16): (s: seq<Byte>)
    ensures |s| == 4 || |s| == 8
  {
    var k := seed / 8 % 4;
    var c := seed % 8;
    if c <= 2 then IntPattern(k) else if c <= 4 then FloatPattern(k) else if c <= 6 then ScientificPattern(k)
      else ErrorPattern(k)
  }

  /** seed++, in 16 bits. */
  function NextSeed(seed: Int16): Int16 { if seed == 0x7FFF then -0x8000 else seed + 1 }

  function SeedAfter(seed: Int16, k: nat): Int16 {
    if k == 0 then seed else NextSeed(SeedAfter(seed, k - 1))
  }

  /** The first k patterns, each with a comma after it. */
  function Joined(seed: Int16, k: nat): seq<Byte> {
    if k == 0 then [] else Joined(seed, k - 1) + Pattern(SeedAfter(seed, k)) + [COMMA]
  }

  /** As many patterns as leave room for two zeros, and zeros to the end. */
  ghost predicate Initialised(s: seq<Byte>, seed: Int16, k: nat) {
    && |Joined(seed, k)| <= |s| && s[..|Joined(seed, k)|] == Joined(seed, k)
    && (forall i | |Joined(seed, k)| <= i < |s| :: s[i] == 0)
    && (|s| >= 2 ==> |Joined(seed, k)| + 2 <= |s|)
    && |Joined(seed, k + 1)| + 2 > |s|
  }

  lemma JoinNext(seed: Int16, k: nat)
    ensures Joined(seed, k + 1) == Joined(seed, k) + Pattern(SeedAfter(seed, k + 1)) + [COMMA]
    ensures SeedAfter(seed, 0) == seed && SeedAfter(seed, k + 1) == NextSeed(SeedAfter(seed, k)) &&
            Joined(seed, 0) == []
    ensures |Joined(seed, k + 1)| == |Joined(seed, k)| + |Pattern(SeedAfter(seed, k + 1))| + 1
    ensures |Pattern(SeedAfter(seed, k + 1))| >= 4
  {
  }

  /** Between two turns of the filling loop: k patterns are written, and buf, if any, is next. */
  ghost predicate Filling(s: seq<Byte>, seed: Int16, k: nat, total: nat, buf: seq<Byte>, sd: Int16) {
    && total == |Joined(seed, k)| <= |s| && s[..total] == Joined(seed, k) && (|s| >= 2 ==> total + 2 <= |s|)
    && if buf == [] then k == 0 && sd == SeedAfter(seed, 0) else sd == SeedAfter(seed, k + 1) && buf == Pattern(sd)
  }

  lemma FillingStart(s: seq<Byte>, seed: Int16)
    ensures Filling(s, seed, 0, 0, [], seed)
  {
  }

  /** A pattern written. */
  lemma FillingMore(s: seq<Byte>, t: seq<Byte>, seed: Int16, k: nat, total: nat, buf: seq<Byte>, sd: Int16)
    requires Filling(s, seed, k, total, buf, sd) && buf != [] && |t| == |s| && total + |buf| + 1 < |s| - 1
    requires t[..total + |buf| + 1] == s[..total] + buf + [COMMA]
    ensures var total' := total + |buf| + 1; total' == |Joined(seed, k + 1)| && t[..total'] == Joined(seed, k + 1)
  {
    hide Pattern, SeedAfter, NextSeed;
    JoinNext(seed, k);
  }

  /** The next pattern chosen. */
  lemma FillingNext(s: seq<Byte>, seed: Int16, k: nat, total: nat, buf: seq<Byte>, sd: Int16)
    requires total == |Joined(seed, k)| <= |s| && s[..total] == Joined(seed, k) && (|s| >= 2 ==> total + 2 <= |s|)
    requires sd == NextSeed(SeedAfter(seed, k)) && buf == Pattern(sd)
    ensures Filling(s, seed, k, total, buf, sd) && buf != []
  {
    hide Pattern, Joined, NextSeed;
    JoinNext(seed, k);
  }

  lemma FillingEnd(s: seq<Byte>, seed: Int16, k: nat, total: nat, buf: seq<Byte>, sd: Int16)
    requires Filling(s, seed, k, total, buf, sd) && total + |buf| + 1 >= |s| - 1
    ensures |Joined(seed, k + 1)| + 2 > |s| && total == |Joined(seed, k)| && s[..total] == Joined(seed, k)
  {
    hide Pattern, SeedAfter, NextSeed;
    JoinNext(seed, k);
  }

  lemma FillingSeed(s: seq<Byte>, seed: Int16, k: nat, total: nat, buf: seq<Byte>, sd: Int16)
    requires Filling(s, seed, k, total, buf, sd)
    ensures total <= |s| && (|s| >= 2 ==> total + 2 <= |s|) && total == |Joined(seed, k)| &&
            s[..total] == Joined(seed, k)
    ensures sd == SeedAfter(seed, if buf == [] then k else k + 1)
  {
  }

  /** A pattern written, and the next chosen. */
  method FillMore(p: array<Byte>, total: nat, buf: seq<Byte>, sd: Int16, ghost seed: Int16, ghost k: nat)
    returns (total': nat, buf': seq<Byte>, sd': Int16, ghost k': nat)
    requires Filling(p[..], seed, k, total, buf, sd) && total + |buf| + 1 < p.Length - 1
    modifies p
    ensures Filling(p[..], seed, k', total', buf', sd') && buf' != [] && total' == total + if buf == [] then 0
              else |buf| + 1
  {
    hide *;
    FillingSeed(p[..], seed, k, total, buf, sd);
    total', k' := total, k;
    if |buf| > 0 {
      ghost var s := p[..];
      PutPattern(p, total, buf);
      assert p[..][..total + |buf| + 1] == p[..total + |buf| + 1] && s[..total] == s[..][..total];
      FillingMore(s, p[..], seed, k, total, buf, sd);
      k' := k + 1;
      total' := total + |buf| + 1;
    }
    sd' := NextSeed(sd);
    buf' := Choose(sd');
    FillingNext(p[..], seed, k', total', buf', sd');
  }

  /** core_init_state on a block of `size` bytes; size 0 would wrap round in C. */
  method InitState(size: nat, seed: Int16, p: array<Byte>) returns (ghost k: nat)
    requires 1 <= size == p.Length
    modifies p
    ensures Initialised(p[..], seed, k)
  {
    hide *;
    k := 0;
    FillingStart(p[..], seed);
    var total := 0;
    var buf: seq<Byte> := [];
    var sd := seed;
    while total + |buf| + 1 < size - 1
      invariant 0 <= total && Filling(p[..], seed, k, total, buf, sd)
      decreases size - total, if buf == [] then 1 else 0
    {
      total, buf, sd, k := FillMore(p, total, buf, sd, seed, k);
    }
    FillingSeed(p[..], seed, k, total, buf, sd);
    FillingEnd(p[..], seed, k, total, buf, sd);
    ghost var s := p[..];
    ZeroRest(p, total, size);
    assert p[..][..total] == p[..total] == s[..total];
    FilledIs(p[..], seed, k);
  }

  lemma FilledIs(s: seq<Byte>, seed: Int16, k: nat)
    requires |Joined(seed, k)| <= |s| && s[..|Joined(seed, k)|] == Joined(seed, k)
    requires forall i | |Joined(seed, k)| <= i < |s| :: s[i] == 0
    requires |s| >= 2 ==> |Joined(seed, k)| + 2 <= |s|
    requires |Joined(seed, k + 1)| + 2 > |s|
    ensures Initialised(s, seed, k)
  {
  }

  /** The rest is filled with zeros. */
  method ZeroRest(p: array<Byte>, from: nat, size: nat)
    requires from <= size == p.Length
    modifies p
    ensures p[..from] == old(p[..from]) && forall i | from <= i < size :: p[i] == 0
  {
    var total := from;
    while total < size
      invariant from <= total <= size && p[..from] == old(p[..from]) && forall i | from <= i < total :: p[i] == 0
    {
      p[total] := 0;
      total := total + 1;
    }
  }

  method PutPattern(p: array<Byte>, total: nat, buf: seq<Byte>)
    requires total + |buf| + 1 <= p.Length
    modifies p
    ensures p[..total + |buf| + 1] == old(p[..total]) + buf + [COMMA]
  {
    var i := 0;
    while i < |buf|
      invariant 0 <= i <= |buf| && p[..total] == old(p[..total]) && p[total..total + i] == buf[..i]
    {
      p[total + i] := buf[i];
      i := i + 1;
    }
    p[total + i] := COMMA;
    assert p[..total + |buf| + 1] == p[..total] + p[total..total + |buf|] + [p[total + |buf|]];
  }

  /** The switch on the seed. */
  method Choose(seed: Int16) returns (buf: seq<Byte>)
    ensures buf == Pattern(seed)
  {
    var c := seed % 8;
    if c == 0 || c == 1 || c == 2 {
      buf := IntPattern(seed / 8 % 4);
    } else if c == 3 || c == 4 {
      buf := FloatPattern(seed / 8 % 4);
    } else if c == 5 || c == 6 {
      buf := ScientificPattern(seed / 8 % 4);
    } else {
      buf := ErrorPattern(seed / 8 % 4);
    }
  }

  // ---- corrupting it

  predicate Visited(i: nat, blksize: nat, step: nat)
    requires step > 0
  {
    i < blksize && i % step == 0
  }

  function Flip(c: Byte, seed: Byte): Byte { if c != COMMA then c ^ seed else c }

  /** Every step-th byte that is no comma is XORed with the seed. */
  function Corrupted(m: seq<Byte>, blksize: nat, seed: Byte, step: nat): (r: seq<Byte>)
    requires step > 0
    ensures |r| == |m| &&
            forall i | 0 <= i < |m| :: r[i] == if Visited(i, blksize, step) then Flip(m[i], seed) else m[i]
  {
    seq(|m|, i requires 0 <= i < |m| => if Visited(i, blksize, step) then Flip(m[i], seed) else m[i])
  }

  lemma NoneVisited(m: seq<Byte>, seed: Byte, step: nat)
    requires step > 0
    ensures Corrupted(m, 0, seed, step) == m
  {
  }

  /** What the loop does to one byte. */
  method FlipByte(mem: array<Byte>, p: nat, seed: Byte)
    requires p < mem.Length
    modifies mem
    ensures mem[..] == old(mem[..])[p := Flip(old(mem[p]), seed)]
  {
    if mem[p] != COMMA { mem[p] := mem[p] ^ seed; }
  }

  /** The corrupting loop, which is also the undoing one. */
  method Corrupt(mem: array<Byte>, blksize: nat, seed: Byte, step: nat)
    requires blksize <= mem.Length && step > 0
    modifies mem
    ensures mem[..] == Corrupted(old(mem[..]), blksize, seed, step)
    ensures forall i | 0 <= i < mem.Length :: mem[i] ==
              if i < blksize && i % step == 0 && old(mem[i]) != 0x2C then old(mem[i]) ^ seed else old(mem[i])
  {
    hide Visited, Flip, Corrupted;
    ghost var m := mem[..];
    ghost var t := 0;
    NoneVisited(m, seed, step);
    var p := 0;
    while p < blksize
      invariant p == t * step && mem[..] == Corrupted(m, Min(p, blksize), seed, step)
      decreases blksize - p
    {
      NextVisited(p, step, t, m, blksize, seed);
      FlipByte(mem, p, seed);
      p := p + step;
      t := t + 1;
    }
    forall i | 0 <= i < mem.Length
      ensures mem[i] == if i < blksize && i % step == 0 && m[i] != 0x2C then m[i] ^ seed else m[i]
    {
      CorruptedAt(m, blksize, seed, step, i);
      assert mem[i] == mem[..][i];
    }
  }

  lemma CorruptedAt(m: seq<Byte>, blksize: nat, seed: Byte, step: nat, i: nat)
    requires step > 0 && i < |m|
    ensures Corrupted(m, blksize, seed, step)[i] ==
            if i < blksize && i % step == 0 && m[i] != 0x2C then m[i] ^ seed else m[i]
  {
  }

  lemma NextVisited(p: nat, step: nat, t: nat, m: seq<Byte>, blksize: nat, seed: Byte)
    requires step > 0 && p == t * step && p < blksize <= |m|
    ensures (t + 1) * step == p + step
    ensures Corrupted(m, p, seed, step)[p] == m[p]
    ensures Corrupted(m, Min(p + step, blksize), seed, step) == Corrupted(m, p, seed, step)[p := Flip(m[p], seed)]
  {
    forall i: nat | i < |m| ensures Visited(i, Min(p + step, blksize), step) <==> Visited(i, p, step) || i == p {
      OnlyMultiple(p, step, t, i);
    }
    hide Flip, Visited;
  }

  lemma OnlyMultiple(p: nat, step: nat, t: nat, i: nat)
    requires step > 0 && p == t * step
    ensures p % step == 0
    ensures p < i < p + step ==> i % step != 0
  {
    DivModUnique(p, step, t, 0);
    if p < i < p + step { DivModUnique(i, step, t, i - p); }
  }

  /** Undoing with the same seed restores the block exactly when corruption made no comma. */
  lemma UndoRestores(m: seq<Byte>, blksize: nat, seed: Byte, step: nat)
    requires step > 0 && blksize <= |m|
    ensures Corrupted(Corrupted(m, blksize, seed, step), blksize, seed, step) == m <==>
            forall i | 0 <= i < |m| && Visited(i, blksize, step) && m[i] != COMMA :: m[i] ^ seed != COMMA
  {
    hide Flip, Visited, Corrupted;
    var c := Corrupted(m, blksize, seed, step);
    var r := Corrupted(c, blksize, seed, step);
    forall i | 0 <= i < |m|
      ensures r[i] == m[i] <==> !(Visited(i, blksize, step) && m[i] != COMMA && m[i] ^ seed == COMMA)
    {
      FlipTwice(m[i], seed);
      hide Flip, Visited;
    }
  }

  lemma FlipTwice(c: Byte, seed: Byte)
    ensures Flip(Flip(c, seed), seed) == c <==> !(c != COMMA && c ^ seed == COMMA)
  {
  }

  /** Of two zeros at the end one survives a step of at least two. */
  lemma StillTerminated(m: seq<Byte>, blksize: nat, seed: Byte, step: nat) returns (z: nat)
    requires step >= 2 && 2 <= blksize == |m| && m[blksize - 2] == m[blksize - 1] == 0
    ensures blksize - 2 <= z < blksize && Corrupted(m, blksize, seed, step)[z] == 0
  {
    if Visited(blksize - 2, blksize, step) {
      DivModUnique(blksize - 1, step, (blksize - 2) / step, 1);
      z := blksize - 1;
    } else {
      z := blksize - 2;
    }
  }

  // ---- scanning it

  /** The states that end the tokens of a text, one after the other. */
  function Scan(text: seq<Byte>, p: nat): seq<State>
    requires p <= |text|
    decreases |text| - p
  {
    if Ends(text, p, Start) then [] else [Token(text, p, Start).0] + Scan(text, Token(text, p, Start).1)
  }

  /** How often transition counter k is incremented. */
  function ScanBumps(text: seq<Byte>, p: nat, k: nat): nat
    requires p <= |text|
    decreases |text| - p
  {
    if Ends(text, p, Start) then 0 else TokenBumps(text, p, Start, k) + ScanBumps(text, Token(text, p, Start).1, k)
  }

  function Tally(states: seq<State>, k: nat): nat {
    if states == [] then 0 else (if Index(states[0]) == k then 1 else 0) + Tally(states[1..], k)
  }

  /** The tally of a state is how often it occurs. */
  lemma {:induction false} TallyIs(states: seq<State>, st: State)
    ensures Tally(states, Index(st)) == multiset(states)[st]
  {
    hide Index;
    if states != [] {
      TallyIs(states[1..], st);
      IndexTells(states[0], st);
      assert states == [states[0]] + states[1..];
    }
  }

  lemma IndexTells(s: State, t: State)
    ensures Index(s) == Index(t) <==> s == t
  {
  }

  /** One of the two scanning loops; `final` and `track` are the counters. */
  method ScanBlock(mem: array<Byte>, final: array<nat>, track: array<nat>, ghost z: nat)
    requires z < mem.Length && mem[z] == 0 && final.Length == track.Length == NUM_CORE_STATES
    requires final != track && (mem as object) != (final as object) && (mem as object) != (track as object)
    modifies final, track
    ensures forall k | 0 <= k < NUM_CORE_STATES :: final[k] == old(final[k]) + Tally(Scan(mem[..], 0), k)
    ensures forall k | 0 <= k < NUM_CORE_STATES :: track[k] == old(track[k]) + ScanBumps(mem[..], 0, k)
  {
    ghost var text := mem[..];
    assert text[z] == 0 && Classify(text[z]) == Nul;
    hide Classify, Token, TokenBumps, Scan, ScanBumps, Tally, Index;
    var p := 0;
    while mem[p] != 0
      invariant 0 <= p <= z && mem[..] == text
      invariant forall k | 0 <= k < NUM_CORE_STATES ::
                  final[k] + Tally(Scan(text, p), k) == old(final[k]) + Tally(Scan(text, 0), k)
      invariant forall k | 0 <= k < NUM_CORE_STATES ::
                  track[k] + ScanBumps(text, p, k) == old(track[k]) + ScanBumps(text, 0, k)
      decreases z - p
    {
      assert mem[p] == text[p] && mem[z] == text[z];
      ScanStep(text, p);
      var state, q := StateTransition(mem, p, track, z);
      final[Index(state)] := final[Index(state)] + 1;
      p := q;
    }
    ScanStep(text, p);
  }

  lemma ScanStep(text: seq<Byte>, p: nat)
    requires p < |text|
    ensures text[p] == 0 ==> forall k: nat :: Tally(Scan(text, p), k) == 0 && ScanBumps(text, p, k) == 0
    ensures text[p] != 0 ==> p < Token(text, p, Start).1 <= |text|
    ensures text[p] != 0 ==> forall k: nat ::
              Tally(Scan(text, p), k) == (if Index(Token(text, p, Start).0) == k then 1 else 0) +
                Tally(Scan(text, Token(text, p, Start).1), k)
    ensures text[p] != 0 ==> forall k: nat ::
              ScanBumps(text, p, k) == TokenBumps(text, p, Start, k) + ScanBumps(text, Token(text, p, Start).1, k)
  {
    assert text[p] == 0 <==> Ends(text, p, Start);
    if text[p] != 0 {
      var (st, q) := Token(text, p, Start);
      assert Scan(text, p)[1..] == Scan(text, q);
    }
    hide Classify, Token, TokenBumps;
  }

  // ---- the benchmark

  /** A counter as the 32-bit word it is in C. */
  function Counter(n: nat): bv32 { (n % 0x1_0000_0000) as bv32 }

  /** The first k pairs of counters as a message, a final count before its track count. */
  function CounterBits(final: seq<nat>, track: seq<nat>, k: nat): seq<bool>
    requires k <= |final| && k <= |track|
  {
    if k == 0 then []
    else CounterBits(final, track, k - 1) + (Crc16.Bits32(Counter(final[k - 1])) + Crc16.Bits32(Counter(track[k - 1])))
  }

  lemma {:induction false} CounterLength(final: seq<nat>, track: seq<nat>, k: nat)
    requires k <= |final| && k <= |track|
    ensures |CounterBits(final, track, k)| == 64 * k
  {
    hide Crc16.Bits32, Counter;
    if k > 0 { CounterLength(final, track, k - 1); }
  }

  /** Where the counters are in that message: the pairs in order, each counter in 32 bits. */
  lemma {:induction false} CounterBitsAt(final: seq<nat>, track: seq<nat>, k: nat, j: nat, i: nat)
    requires j < k <= |final| && k <= |track| && i < 32
    ensures |CounterBits(final, track, k)| == 64 * k
    ensures CounterBits(final, track, k)[64 * j + i] == Crc16.Bits32(Counter(final[j]))[i]
    ensures CounterBits(final, track, k)[64 * j + 32 + i] == Crc16.Bits32(Counter(track[j]))[i]
  {
    hide Crc16.Bits32, Counter;
    CounterLength(final, track, k - 1);
    if j < k - 1 { CounterBitsAt(final, track, k - 1, j, i); }
  }

  lemma CounterIs(n: nat)
    ensures Counter(n) == (n % 0x1_0000_0000) as bv32
  {
  }

  /** The checksum over the counters. */
  method CountersCrc(final: array<nat>, track: array<nat>, crc: bv16) returns (r: bv16)
    requires final.Length == track.Length == NUM_CORE_STATES
    ensures r == Crc16.Crc(CounterBits(final[..], track[..], NUM_CORE_STATES), crc)
  {
    hide Crc16.Bits32, Counter;
    r := crc;
    for i := 0 to NUM_CORE_STATES
      invariant r == Crc16.Crc(CounterBits(final[..], track[..], i), crc)
    {
      ghost var f, t := Crc16.Bits32(Counter(final[i])), Crc16.Bits32(Counter(track[i]));
      Crc16.CrcAppend(f, t, r);
      Crc16.CrcAppend(CounterBits(final[..], track[..], i), f + t, crc);
      r := Crc16.CrcU32(Counter(final[i]), r);
      r := Crc16.CrcU32(Counter(track[i]), r);
    }
  }

  method NoCounts() returns (counts: array<nat>)
    ensures fresh(counts) && counts.Length == NUM_CORE_STATES && forall k | 0 <= k < NUM_CORE_STATES :: counts[k] == 0
  {
    counts := new nat[NUM_CORE_STATES](_ => 0);
  }

  /** core_bench_state.  `final` and `track` are its two tables of counters. */
  method BenchState(blksize: nat, mem: array<Byte>, seed1: Byte, seed2: Byte, step: nat, crc: bv16)
    returns (r: bv16, ghost final: seq<nat>, ghost track: seq<nat>)
    requires 2 <= blksize == mem.Length && step >= 2 && mem[blksize - 2] == mem[blksize - 1] == 0
    modifies mem
    ensures |final| == |track| == NUM_CORE_STATES && r == Crc16.Crc(CounterBits(final, track, NUM_CORE_STATES), crc)
    ensures var m, c := old(mem[..]), Corrupted(old(mem[..]), blksize, seed1, step);
            forall k | 0 <= k < NUM_CORE_STATES ::
              && final[k] == Tally(Scan(m, 0), k) + Tally(Scan(c, 0), k)
              && track[k] == ScanBumps(m, 0, k) + ScanBumps(c, 0, k)
    ensures mem[..] == Corrupted(Corrupted(old(mem[..]), blksize, seed1, step), blksize, seed2, step)
  {
    hide *;
    ghost var m := mem[..];
    var final_counts := NoCounts();
    var track_counts := NoCounts();
    ScanBlock(mem, final_counts, track_counts, blksize - 1);
    ghost var f, t := final_counts[..], track_counts[..];
    Corrupt(mem, blksize, seed1, step);
    ghost var z := StillTerminated(m, blksize, seed1, step);
    ScanBlock(mem, final_counts, track_counts, z);
    Corrupt(mem, blksize, seed2, step);
    r := CountersCrc(final_counts, track_counts, crc);
    final, track := final_counts[..], track_counts[..];
  }

  /** On a block filled by core_init_state both scans stay inside it, and with equal low seed
      bytes the block is as it was exactly when the corruption made no comma. */
  method BenchInitialised(blksize: nat, seed: Int16, mem: array<Byte>, low: Byte, step: nat, crc: bv16)
    returns (r: bv16, ghost k: nat, ghost m: seq<Byte>)
    requires 2 <= blksize == mem.Length && step >= 2
    modifies mem
    ensures |m| == blksize && Initialised(m, seed, k)
    ensures mem[..] == m <==>
              forall i | 0 <= i < |m| && Visited(i, blksize, step) && m[i] != COMMA :: m[i] ^ low != COMMA
  {
    k := InitState(blksize, seed, mem);
    m := mem[..];
    assert mem[blksize - 2] == mem[blksize - 1] == 0;
    hide *;
    ghost var final, track;
    r, final, track := BenchState(blksize, mem, low, low, step, crc);
    UndoRestores(m, blksize, low, step);
  }

  // ---- the patterns

  lemma Walk(s: seq<Byte>, i: nat)
    requires i < |s|
    ensures After(s[..i + 1]) == Next(After(s[..i]), Classify(s[i]))
  {
    hide Classify, Next;
    assert s[..i + 1][..i] == s[..i];
  }

  lemma Walks(s: seq<Byte>)
    ensures After(s[..0]) == Start && s[..|s|] == s
    ensures |s| >= 4 ==>
              After(s[..4]) ==
              Next(Next(Next(Next(Start, Classify(s[0])), Classify(s[1])), Classify(s[2])), Classify(s[3]))
    ensures |s| >= 8 ==>
              After(s[..8]) ==
              Next(Next(Next(Next(After(s[..4]), Classify(s[4])), Classify(s[5])), Classify(s[6])), Classify(s[7]))
  {
    hide Classify, Next;
    for i := 0 to |s|
      invariant forall j | 0 <= j < i :: After(s[..j + 1]) == Next(After(s[..j]), Classify(s[j]))
    {
      Walk(s, i);
    }
  }

  /** The integers, the floats and all but one of the scientific patterns are what they are
      called; the third scientific one, -87e+832, is an invalid number to the automaton. */
  lemma PatternKinds(k: nat)
    requires k <= 3
    ensures IsInt(IntPattern(k)) && IsFloat(FloatPattern(k))
    ensures k != 2 ==> IsScientific(ScientificPattern(k))
    ensures k == 2 ==> !Viable(ScientificPattern(k))
    ensures !Viable(ErrorPattern(k))
  {
    hide After, Classify, Next;
    PatternState(IntPattern(k));
    PatternState(FloatPattern(k));
    PatternState(ScientificPattern(k));
    PatternState(ErrorPattern(k));
    PatternStates(k);
  }

  lemma PatternState(s: seq<Byte>)
    ensures After(s) == Int <==> IsInt(s)
    ensures After(s) == Float <==> IsFloat(s)
    ensures After(s) == Scientific <==> IsScientific(s)
    ensures After(s) == Invalid <==> !Viable(s)
  {
    Accepts(s);
    InvalidMeaning(s);
  }

  lemma PatternStates(k: nat)
    requires k <= 3
    ensures After(IntPattern(k)) == Int && After(FloatPattern(k)) == Float
    ensures After(ScientificPattern(k)) == if k == 2 then Invalid else Scientific
    ensures After(ErrorPattern(k)) == Invalid
  {
    hide *;
    IntFloatStates(k);
    ScientificStates(k);
    ErrorStates(k);
  }

  lemma ScientificStates(k: nat)
    requires k <= 3
    ensures After(ScientificPattern(k)) == if k == 2 then Invalid else Scientific
  {
    hide After;
    Walks(ScientificPattern(k));
  }

  lemma ErrorStates(k: nat)
    requires k <= 3
    ensures After(ErrorPattern(k)) == Invalid
  {
    hide After;
    Walks(ErrorPattern(k));
  }

  lemma IntFloatStates(k: nat)
    requires k <= 3
    ensures After(IntPattern(k)) == Int && After(FloatPattern(k)) == Float
  {
    hide After;
    Walks(IntPattern(k));
    Walks(FloatPattern(k));
  }

  // ---- the fields of the block

  function Chars(s: seq<Byte>): string { seq(|s|, i requires 0 <= i < |s| => s[i] as char) }

  lemma {:induction false} SeedIs(seed: Int16, k: nat) returns (m: nat)
    ensures SeedAfter(seed, k) == seed + k - 0x1_0000 * m
  {
    if k == 0 {
      m := 0;
    } else {
      m := SeedIs(seed, k - 1);
      if SeedAfter(seed, k - 1) == 0x7FFF { m := m + 1; }
    }
  }

  lemma Wraps(a: int, m: nat)
    ensures (a - 0x1_0000 * m) % 8 == a % 8 && (a - 0x1_0000 * m) / 8 % 4 == a / 8 % 4
  {
    var q, r := a / 8, a % 8;
    DivModUnique(a - 0x1_0000 * m, 8, q - 0x2000 * m, r);
    DivModUnique(q - 0x2000 * m, 4, q / 4 - 0x800 * m, q % 4);
  }

  /** The wrap-round of the seed does not show in the bits that select. */
  lemma SelectorIs(seed: Int16, k: nat)
    ensures SeedAfter(seed, k) % 8 == (seed + k) % 8 && SeedAfter(seed, k) / 8 % 4 == (seed + k) / 8 % 4
  {
    hide SeedAfter;
    var m := SeedIs(seed, k);
    Wraps(seed + k, m);
  }

  lemma IntTexts(k: nat)
    requires k <= 3
    ensures Chars(IntPattern(k)) == ["5012", "1234", "-874", "+122"][k]
  {
  }

  lemma FloatTexts(k: nat)
    requires k <= 3
    ensures Chars(FloatPattern(k)) == ["35.54400", ".1234500", "-110.700", "+0.64400"][k]
  {
  }

  lemma ScientificTexts(k: nat)
    requires k <= 3
    ensures Chars(ScientificPattern(k)) == ["5.500e+3", "-.123e-2", "-87e+832", "+0.6e-12"][k]
  {
  }

  lemma ErrorTexts(k: nat)
    requires k <= 3
    ensures Chars(ErrorPattern(k)) == ["T0.3e-1F", "-T.T++Tq", "1T3.4e4z", "34.0e-T^"][k]
  {
  }

  lemma NoComma(seed: Int16)
    ensures COMMA !in Pattern(seed)
  {
  }

  /** What a pattern is, by the number that selects it. */
  lemma PatternIs(n: Int16)
    ensures n % 8 <= 2 ==> Pattern(n) == IntPattern(n / 8 % 4) && |Pattern(n)| == 4
    ensures n % 8 in {3, 4} ==> Pattern(n) == FloatPattern(n / 8 % 4) && |Pattern(n)| == 8
    ensures n % 8 in {5, 6} ==> Pattern(n) == ScientificPattern(n / 8 % 4) && |Pattern(n)| == 8
    ensures n % 8 == 7 ==> Pattern(n) == ErrorPattern(n / 8 % 4) && |Pattern(n)| == 8
  {
  }

  lemma {:induction false} JoinedPrefix(seed: Int16, j: nat, k: nat)
    requires j <= k
    ensures Joined(seed, j) <= Joined(seed, k)
  {
    hide Pattern, SeedAfter;
    if j < k { JoinedPrefix(seed, j, k - 1); }
  }

  lemma CommaChar(c: Byte)
    ensures c == COMMA <==> c as char == ','
  {
    Characters(c);
  }

  lemma CharsComma(s: seq<Byte>)
    requires COMMA !in s
    ensures ',' !in Chars(s)
  {
    forall i | 0 <= i < |s| ensures Chars(s)[i] != ',' { CommaChar(s[i]); }
  }

  lemma CharsJoin(a: seq<Byte>, b: seq<Byte>)
    ensures Chars(a + b) == Chars(a) + Chars(b)
  {
  }

  lemma OneComma(t: string, f: string)
    requires ',' !in f
    ensures multiset(t + f + [','])[','] == multiset(t)[','] + 1
  {
    assert ',' !in multiset(f);
  }

  lemma {:induction false} JoinedCommas(seed: Int16, k: nat)
    ensures multiset(Chars(Joined(seed, k)))[','] == k
  {
    hide Pattern, SeedAfter, Chars;
    if k == 0 {
      CharsNone();
    } else {
      var t, f := Joined(seed, k - 1), Pattern(SeedAfter(seed, k));
      JoinedCommas(seed, k - 1);
      NoComma(SeedAfter(seed, k));
      CharsComma(f);
      CharsJoin(t + f, [COMMA]);
      CharsJoin(t, f);
      CharsNone();
      OneComma(Chars(t), Chars(f));
    }
  }

  lemma CharsNone()
    ensures Chars([]) == [] && Chars([COMMA]) == [',']
  {
  }

  lemma Piece(s: seq<Byte>, t: seq<Byte>, f: seq<Byte>)
    requires t + f + [COMMA] <= s
    ensures var o, e := |t|, |t| + |f|; s[..o] == t && s[o..e] == f && s[e] == COMMA
  {
    var e := |t| + |f|;
    assert s[..e + 1] == t + f + [COMMA];
    assert s[..e + 1][..|t|] == s[..|t|];
    assert s[..e + 1][|t|..e] == s[|t|..e];
    assert s[..e + 1][e] == s[e];
  }

  lemma JoinedEnd(seed: Int16, k: nat)
    requires k > 0
    ensures Joined(seed, k) != [] && Joined(seed, k)[|Joined(seed, k)| - 1] == COMMA
  {
    hide Pattern, SeedAfter;
  }

  lemma JoinedField(s: seq<Byte>, seed: Int16, k: nat, j: nat)
    requires Initialised(s, seed, k) && 1 <= j <= k
    ensures Joined(seed, j - 1) + Pattern(SeedAfter(seed, j)) + [COMMA] <= s
  {
    hide Pattern, SeedAfter;
    JoinedPrefix(seed, j, k);
  }

  /** Where the j-th pattern of a filled block is: between the comma before it, if any, and the
      j-th comma. */
  lemma FieldAt(s: seq<Byte>, seed: Int16, k: nat, j: nat) returns (o: nat, e: nat)
    requires Initialised(s, seed, k) && 1 <= j <= k
    ensures o <= e < |s| && s[e] == COMMA && (o == 0 || s[o - 1] == COMMA) && COMMA !in s[o..e]
    ensures multiset(Chars(s[..o]))[','] == j - 1 && s[o..e] == Pattern(SeedAfter(seed, j))
  {
    hide *;
    var t, f := Joined(seed, j - 1), Pattern(SeedAfter(seed, j));
    o, e := |t|, |t| + |f|;
    JoinedField(s, seed, k, j);
    Piece(s, t, f);
    JoinedCommas(seed, j - 1);
    NoComma(SeedAfter(seed, j));
    if j == 1 {
      JoinNext(seed, 0);
    } else {
      JoinedEnd(seed, j - 1);
      assert s[..o][o - 1] == s[o - 1];
    }
  }

  /** The j-th comma-terminated field of a filled block, by the seed alone. */
  lemma Field(s: seq<Byte>, seed: Int16, k: nat, j: nat) returns (o: nat, e: nat)
    requires Initialised(s, seed, k) && 1 <= j <= k
    ensures o <= e < |s| && s[e] == COMMA && (o == 0 || s[o - 1] == COMMA) && COMMA !in s[o..e]
    ensures multiset(Chars(s[..o]))[','] == j - 1
    ensures var f, c, t := s[o..e], (seed + j) % 8, (seed + j) / 8 % 4;
            && (c <= 2 ==> |f| == 4 && IsInt(f) && Chars(f) == ["5012", "1234", "-874", "+122"][t])
            && (c in {3, 4} ==>
                  |f| == 8 && IsFloat(f) && Chars(f) == ["35.54400", ".1234500", "-110.700", "+0.64400"][t])
            && (c in {5, 6} ==>
                  |f| == 8 && (if t == 2 then !Viable(f) else IsScientific(f)) &&
                  Chars(f) == ["5.500e+3", "-.123e-2", "-87e+832", "+0.6e-12"][t])
            && (c == 7 ==>
                  |f| == 8 && !Viable(f) && Chars(f) == ["T0.3e-1F", "-T.T++Tq", "1T3.4e4z", "34.0e-T^"][t])
  {
    hide *;
    o, e := FieldAt(s, seed, k, j);
    var t := (seed + j) / 8 % 4;
    SelectorIs(seed, j);
    PatternIs(SeedAfter(seed, j));
    PatternKinds(t);
    IntTexts(t);
    FloatTexts(t);
    ScientificTexts(t);
    ErrorTexts(t);
  }

  lemma JoinedLength(seed: Int16, k: nat)
    ensures |Joined(seed, k + 1)| == |Joined(seed, k)| + if (seed + (k + 1)) % 8 <= 2 then 5 else 9
  {
    hide *;
    JoinNext(seed, k);
    SelectorIs(seed, k + 1);
    PatternIs(SeedAfter(seed, k + 1));
  }

  /** The block ends in zeros: at least two, and not enough for the next pattern, its comma and
      two more. */
  lemma Tail(s: seq<Byte>, seed: Int16, k: nat) returns (end: nat)
    requires Initialised(s, seed, k)
    ensures end <= |s| && multiset(Chars(s[..end]))[','] == k &&
            (if k == 0 then end == 0 else end > 0 && s[end - 1] == COMMA)
    ensures forall i | end <= i < |s| :: s[i] == 0
    ensures |s| >= 2 ==> end + 2 <= |s|
    ensures end + (if (seed + (k + 1)) % 8 <= 2 then 5 else 9) + 2 > |s|
  {
    hide Joined, Pattern, SeedAfter;
    end := |Joined(seed, k)|;
    JoinedLength(seed, k);
    JoinedCommas(seed, k);
    if k == 0 {
      JoinNext(seed, 0);
    } else {
      JoinedEnd(seed, k);
      assert s[..end][end - 1] == s[end - 1];
    }
  }
}
