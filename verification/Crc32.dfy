/** crc32a of checksum.c, which works on bit-reversed words from the top, and the CRC-32 of
    section 8 of RFC 1952, which works from the bottom with a table. */
module Crc32 {

  // ---- the reversal

  function Reversed(x: bv32): bv32 {
    var a := ((x & 0x55555555) << 1) | ((x >> 1) & 0x55555555);
    var b := ((a & 0x33333333) << 2) | ((a >> 2) & 0x33333333);
    var c := ((b & 0x0F0F0F0F) << 4) | ((b >> 4) & 0x0F0F0F0F);
    (c << 24) | ((c & 0xFF00) << 8) | ((c >> 8) & 0xFF00) | (c >> 24)
  }

  /** reverse */
  method Reverse(x0: bv32) returns (x: bv32)
    ensures x == Reversed(x0)
  {
    x := x0;
    x := ((x & 0x55555555) << 1) | ((x >> 1) & 0x55555555);
    x := ((x & 0x33333333) << 2) | ((x >> 2) & 0x33333333);
    x := ((x & 0x0F0F0F0F) << 4) | ((x >> 4) & 0x0F0F0F0F);
    x := (x << 24) | ((x & 0xFF00) << 8) | ((x >> 8) & 0xFF00) | (x >> 24);
  }

  /** The sixteen lowest bits, lowest first. */
  function LowBits(x: bv32): (r: seq<bool>)
    ensures |r| == 16
  {
    [x & 0x1 != 0, x & 0x2 != 0, x & 0x4 != 0, x & 0x8 != 0, x & 0x10 != 0, x & 0x20 != 0, x & 0x40 != 0, x & 0x80 != 0,
     x & 0x100 != 0, x & 0x200 != 0, x & 0x400 != 0, x & 0x800 != 0, x & 0x1000 != 0, x & 0x2000 != 0, x & 0x4000 != 0,
     x & 0x8000 != 0]
  }

  /** The sixteen highest bits, highest first. */
  function HighBits(x: bv32): (r: seq<bool>)
    ensures |r| == 16
  {
    [x & 0x80000000 != 0, x & 0x40000000 != 0, x & 0x20000000 != 0, x & 0x10000000 != 0, x & 0x8000000 != 0,
     x & 0x4000000 != 0, x & 0x2000000 != 0, x & 0x1000000 != 0,
     x & 0x800000 != 0, x & 0x400000 != 0, x & 0x200000 != 0, x & 0x100000 != 0, x & 0x80000 != 0, x & 0x40000 != 0,
     x & 0x20000 != 0, x & 0x10000 != 0]
  }

  /** Bit k goes to place 31 - k. */
  lemma ReversedBits(x: bv32)
    ensures LowBits(Reversed(x)) == HighBits(x) && HighBits(Reversed(x)) == LowBits(x)
  {
  }

  /** Twice is nothing. */
  lemma Involutive(x: bv32)
    ensures Reversed(Reversed(x)) == x
  {
  }

  lemma ReversedShift(x: bv32)
    ensures Reversed(x << 1) == Reversed(x) >> 1
  {
  }

  lemma ReversedTop(x: bv32)
    ensures (x & 0x80000000 != 0) == Low(Reversed(x))
  {
  }

  lemma ReversedXor(x: bv32, y: bv32)
    ensures Reversed(x ^ y) == Reversed(x) ^ Reversed(y)
  {
  }

  lemma ReversedNot(x: bv32)
    ensures Reversed(!x) == Reversed(x) ^ 0xFFFFFFFF
  {
  }

  lemma ReversedConstants()
    ensures Reversed(0x04C11DB7) == POLY && Reversed(0xFFFFFFFF) == 0xFFFFFFFF
  {
  }

  // ---- section 8 of RFC 1952

  const POLY: bv32 := 0xEDB88320

  function Low(c: bv32): bool { c & 1 != 0 }

  function Half(c: bv32): bv32 { c >> 1 }

  function Plus(a: bv32, b: bv32): bv32 { a ^ b }

  function Step(c: bv32): bv32 { if Low(c) then Plus(Half(c), POLY) else Half(c) }

  function Steps(c: bv32, k: nat): bv32 { if k == 0 then c else Step(Steps(c, k - 1)) }

  function LowByte(c: bv32): bv32 { c & 0xFF }

  function Rest(c: bv32): bv32 { c & 0xFFFFFF00 }

  function Over(c: bv32): bv32 { c >> 8 }

  /** An entry of the table. */
  function TableEntry(n: bv32): bv32 { Steps(n, 8) }

  /** One byte into the register. */
  function Update(c: bv32, b: bv8): bv32 { Plus(TableEntry(LowByte(Plus(c, b as bv32))), Over(c)) }

  function Fold(m: seq<bv8>, c: bv32): bv32 {
    if m == [] then c else Update(Fold(m[..|m| - 1], c), m[|m| - 1])
  }

  function Crc(m: seq<bv8>): bv32 { Plus(Fold(m, 0xFFFFFFFF), 0xFFFFFFFF) }

  // ---- a step is linear

  lemma HalfLinear(c: bv32, d: bv32)
    ensures Half(Plus(c, d)) == Plus(Half(c), Half(d))
  {
  }

  lemma LowLinear(c: bv32, d: bv32)
    ensures Low(Plus(c, d)) <==> Low(c) != Low(d)
  {
  }

  lemma PlusCancels(x: bv32, y: bv32, p: bv32)
    ensures Plus(Plus(x, p), Plus(y, p)) == Plus(x, y)
  {
    XorCancels(x, y, p, Plus(x, p), Plus(y, p));
  }

  lemma XorCancels(x: bv32, y: bv32, p: bv32, u: bv32, v: bv32)
    requires u == x ^ p && v == y ^ p
    ensures u ^ v == x ^ y
  {
  }

  lemma PlusRight(x: bv32, y: bv32, p: bv32)
    ensures Plus(x, Plus(y, p)) == Plus(Plus(x, y), p)
  {
  }

  lemma PlusSwap(x: bv32, y: bv32)
    ensures Plus(x, y) == Plus(y, x)
  {
  }

  lemma PlusLeft(x: bv32, y: bv32, p: bv32)
    ensures Plus(Plus(x, p), y) == Plus(Plus(x, y), p)
  {
    hide Plus;
    PlusRight(x, p, y);
    PlusRight(x, y, p);
    PlusSwap(p, y);
  }

  lemma StepLinear(c: bv32, d: bv32)
    ensures Step(Plus(c, d)) == Plus(Step(c), Step(d))
  {
    hide Half, Low, Plus;
    HalfLinear(c, d);
    LowLinear(c, d);
    PlusCancels(Half(c), Half(d), POLY);
    PlusLeft(Half(c), Half(d), POLY);
    PlusRight(Half(c), Half(d), POLY);
  }

  lemma {:induction false} StepsLinear(c: bv32, d: bv32, k: nat)
    ensures Steps(Plus(c, d), k) == Plus(Steps(c, k), Steps(d, k))
  {
    hide Step, Plus;
    if k > 0 {
      StepsLinear(c, d, k - 1);
      StepLinear(Steps(c, k - 1), Steps(d, k - 1));
    }
  }

  // ---- eight steps are one look in the table

  lemma Halving(y: bv32)
    requires y & 0xF == 0
    ensures !Low(y) && !Low(Half(y)) && !Low(Half(Half(y))) && !Low(Half(Half(Half(y))))
  {
  }

  lemma FourSteps(y: bv32)
    requires y & 0xF == 0
    ensures Steps(y, 4) == Half(Half(Half(Half(y))))
  {
    Halving(y);
    hide Low, Half, Plus;
    assert Steps(y, 1) == Half(y);
    assert Steps(y, 2) == Half(Half(y));
    assert Steps(y, 3) == Half(Half(Half(y)));
  }

  lemma {:induction false} StepsAppend(y: bv32, j: nat, k: nat)
    ensures Steps(y, j + k) == Steps(Steps(y, j), k)
  {
    hide Step;
    if k > 0 { StepsAppend(y, j, k - 1); }
  }

  lemma RestHalves(x: bv32)
    ensures var y := Rest(x); var z := Half(Half(Half(Half(y))));
            y & 0xF == 0 && z & 0xF == 0 && Half(Half(Half(Half(z)))) == Over(x)
  {
  }

  lemma StepsOver(x: bv32)
    ensures Steps(Rest(x), 8) == Over(x)
  {
    hide *;
    RestHalves(x);
    FourSteps(Rest(x));
    FourSteps(Half(Half(Half(Half(Rest(x))))));
    StepsAppend(Rest(x), 4, 4);
  }

  lemma Split(x: bv32)
    ensures Plus(LowByte(x), Rest(x)) == x
  {
  }

  lemma EightSteps(x: bv32)
    ensures Steps(x, 8) == Plus(TableEntry(LowByte(x)), Over(x))
  {
    hide Steps, Plus, LowByte, Rest, Over;
    Split(x);
    StepsLinear(LowByte(x), Rest(x), 8);
    StepsOver(x);
  }

  lemma HighPart(c: bv32, b: bv8)
    ensures Over(Plus(c, b as bv32)) == Over(c)
  {
  }

  lemma UpdateIs(c: bv32, b: bv8)
    ensures Update(c, b) == Steps(Plus(c, b as bv32), 8)
  {
    hide Plus, TableEntry, Steps, LowByte, Over;
    EightSteps(Plus(c, b as bv32));
    HighPart(c, b);
  }

  // ---- the code

  function Top(x: bv32): bool { x & 0x80000000 != 0 }

  /** A turn of the inner loop, seen through the reversal. */
  lemma TurnReversed(crc: bv32, byte: bv32, crc': bv32)
    requires crc' == if Top(crc ^ byte) then (crc << 1) ^ 0x04C11DB7 else crc << 1
    ensures Plus(Reversed(crc'), Reversed(byte << 1)) == Step(Plus(Reversed(crc), Reversed(byte)))
    ensures Reversed(byte << 1) == Half(Reversed(byte))
  {
    hide Reversed, Low, Half, Plus, Top;
    ReversedTop(crc ^ byte);
    TopIs(crc ^ byte);
    ReversedPlus(crc, byte);
    ReversedHalf(crc);
    ReversedHalf(byte);
    ReversedPlus(crc << 1, 0x04C11DB7);
    ReversedConstants();
    HalfLinear(Reversed(crc), Reversed(byte));
    PlusLeft(Half(Reversed(crc)), Half(Reversed(byte)), POLY);
  }

  lemma TopIs(x: bv32)
    ensures Top(x) <==> x & 0x80000000 != 0
  {
  }

  lemma ReversedPlus(x: bv32, y: bv32)
    ensures Reversed(x ^ y) == Plus(Reversed(x), Reversed(y))
  {
    hide Reversed;
    ReversedXor(x, y);
  }

  lemma ReversedHalf(x: bv32)
    ensures Reversed(x << 1) == Half(Reversed(x))
  {
    hide Reversed;
    ReversedShift(x);
  }

  function Halves(x: bv32, k: nat): bv32 { if k == 0 then x else Half(Halves(x, k - 1)) }

  lemma {:induction false} HalvesAppend(x: bv32, j: nat, k: nat)
    ensures Halves(x, j + k) == Halves(Halves(x, j), k)
  {
    hide Half;
    if k > 0 { HalvesAppend(x, j, k - 1); }
  }

  lemma FourHalves(x: bv32)
    ensures Halves(x, 4) == Half(Half(Half(Half(x))))
  {
    hide Half;
    assert Halves(x, 1) == Half(x);
    assert Halves(x, 2) == Half(Half(x));
    assert Halves(x, 3) == Half(Half(Half(x)));
  }

  lemma ByteHalved(b: bv8)
    ensures Half(Half(Half(Half(Half(Half(Half(Half(b as bv32)))))))) == 0
  {
  }

  lemma ByteGone(b: bv8)
    ensures Halves(b as bv32, 8) == 0
  {
    hide *;
    HalvesAppend(b as bv32, 4, 4);
    FourHalves(b as bv32);
    FourHalves(Half(Half(Half(Half(b as bv32)))));
    ByteHalved(b);
  }

  /** The inner loop: one byte, bit by bit from the top. */
  method FeedByte(crc0: bv32, b: bv8) returns (crc: bv32)
    ensures Reversed(crc) == Update(Reversed(crc0), b)
  {
    hide Reversed, Half, Plus, Step, Update;
    crc := crc0;
    var byte := Reverse(b as bv32);
    Involutive(b as bv32);
    ghost var start := Plus(Reversed(crc0), b as bv32);
    var j := 0;
    while j <= 7
      invariant 0 <= j <= 8
      invariant Plus(Reversed(crc), Reversed(byte)) == Steps(start, j) && Reversed(byte) == Halves(b as bv32, j)
    {
      ghost var crc1 := crc;
      if (crc ^ byte) & 0x80000000 != 0 { crc := (crc << 1) ^ 0x04C11DB7; } else { crc := crc << 1; }
      TurnReversed(crc1, byte, crc);
      byte := byte << 1;
      j := j + 1;
    }
    ByteGone(b);
    PlusZero(Reversed(crc));
    UpdateIs(Reversed(crc0), b);
  }

  lemma PlusZero(c: bv32)
    ensures Plus(c, 0) == c
  {
  }

  /** crc32a is the CRC-32 of section 8 of RFC 1952. */
  method Crc32a(message: array<bv8>, size: nat) returns (r: bv32)
    requires size == message.Length
    ensures r == Crc(message[..])
  {
    hide Reversed, Plus, Update;
    ReversedConstants();
    var i := 0;
    var crc: bv32 := 0xFFFFFFFF;
    while i < size
      invariant 0 <= i <= size && Reversed(crc) == Fold(message[..i], 0xFFFFFFFF)
    {
      assert message[..i + 1][..i] == message[..i];
      crc := FeedByte(crc, message[i]);
      i := i + 1;
    }
    assert message[..size] == message[..];
    NotIsPlus(crc);
    r := Reverse(!crc);
  }

  lemma NotIsPlus(c: bv32)
    ensures Reversed(!c) == Plus(Reversed(c), 0xFFFFFFFF)
  {
    ReversedNot(c);
  }

  // ---- the check value

  lemma UpdateSteps(c: bv32, b: bv8)
    ensures Update(c, b) == Step(Step(Step(Step(Step(Step(Step(Step(Plus(c, b as bv32)))))))))
  {
    hide Plus, Step, Update;
    UpdateIs(c, b);
    var y := Plus(c, b as bv32);
    assert Steps(y, 1) == Step(y);
    assert Steps(y, 2) == Step(Step(y));
    assert Steps(y, 3) == Step(Step(Step(y)));
    assert Steps(y, 4) == Step(Step(Step(Step(y))));
    assert Steps(y, 5) == Step(Step(Step(Step(Step(y)))));
    assert Steps(y, 6) == Step(Step(Step(Step(Step(Step(y))))));
    assert Steps(y, 7) == Step(Step(Step(Step(Step(Step(Step(y)))))));
  }

  /** One more byte of a message. */
  lemma Next(m: seq<bv8>, b: bv8, c: bv32, d: bv32)
    requires Fold(m, 0xFFFFFFFF) == c
    requires Step(Step(Step(Step(Step(Step(Step(Step(Plus(c, b as bv32))))))))) == d
    ensures Fold(m + [b], 0xFFFFFFFF) == d
  {
    hide Plus, Step, Update;
    UpdateSteps(c, b);
    assert (m + [b])[..|m|] == m;
  }

  lemma Empty(c: bv32)
    ensures Fold([], c) == c
  {
  }

  /** The check value by which the CRC-32 is known: that of the nine digits from 1 to 9. */
  lemma CheckValue()
    ensures Crc([0x31, 0x32, 0x33, 0x34, 0x35, 0x36, 0x37, 0x38, 0x39]) == 0xCBF43926
  {
    hide Fold;
    Empty(0xFFFFFFFF);
    var m: seq<bv8> := [];
    Next(m, 0x31, 0xFFFFFFFF, 0x7C231048);
    m := m + [0x31];
    Next(m, 0x32, 0x7C231048, 0xB0ACBB32);
    m := m + [0x32];
    Next(m, 0x33, 0xB0ACBB32, 0x77B79C2D);
    m := m + [0x33];
    Next(m, 0x34, 0x77B79C2D, 0x641C1F5C);
    m := m + [0x34];
    Next(m, 0x35, 0x641C1F5C, 0x340AC5E3);
    m := m + [0x35];
    Next(m, 0x36, 0x340AC5E3, 0xF68D2C9E);
    m := m + [0x36];
    Next(m, 0x37, 0xF68D2C9E, 0xAFFC9660);
    m := m + [0x37];
    Next(m, 0x38, 0xAFFC9660, 0x651F2550);
    m := m + [0x38];
    Next(m, 0x39, 0x651F2550, 0x340BC6D9);
    m := m + [0x39];
    assert m == [0x31, 0x32, 0x33, 0x34, 0x35, 0x36, 0x37, 0x38, 0x39];
  }
}
