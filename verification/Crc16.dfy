/** The 16-bit CRC of core_util.c: the shift register, and what it means as division of
    polynomials over GF(2). */
module Crc16 {

  // ---- bits

  /** The bits of a word, the lowest first. */
  function Bits(c: bv16): (r: seq<bool>)
    ensures |r| == 16
  {
    [c & 0x1 != 0, c & 0x2 != 0, c & 0x4 != 0, c & 0x8 != 0, c & 0x10 != 0, c & 0x20 != 0, c & 0x40 != 0, c & 0x80 != 0,
     c & 0x100 != 0, c & 0x200 != 0, c & 0x400 != 0, c & 0x800 != 0, c & 0x1000 != 0, c & 0x2000 != 0, c & 0x4000 != 0,
     c & 0x8000 != 0]
  }

  function Bits32(w: bv32): (r: seq<bool>)
    ensures |r| == 32
  {
    Bits(LowHalf(w)) + Bits(HighHalf(w))
  }

  function LowHalf(w: bv32): bv16 { (w & 0xFFFF) as bv16 }

  function HighHalf(w: bv32): bv16 { (w >> 16) as bv16 }

  function ByteBits(c: bv8): (r: seq<bool>)
    ensures |r| == 8
  {
    [c & 0x1 != 0, c & 0x2 != 0, c & 0x4 != 0, c & 0x8 != 0, c & 0x10 != 0, c & 0x20 != 0, c & 0x40 != 0, c & 0x80 != 0]
  }

  /** A message as the register sees it. */
  function MessageBits(m: seq<bv8>): seq<bool> {
    if m == [] then [] else MessageBits(m[..|m| - 1]) + ByteBits(m[|m| - 1])
  }

  // ---- the register

  const POLY: bv16 := 0xA001

  function Low(c: bv16): bool { c & 1 != 0 }

  function Half(c: bv16): bv16 { c >> 1 }

  /** The sum of two polynomials. */
  function Plus(a: bv16, b: bv16): bv16 { a ^ b }

  function Reduced(c: bv16, lead: bool): bv16 { if lead then Plus(c, POLY) else c }

  /** One bit through the register. */
  function Step(bit: bool, crc: bv16): bv16 { Reduced(Half(crc), bit != Low(crc)) }

  function Crc(bits: seq<bool>, crc: bv16): bv16 {
    if bits == [] then crc else Crc(bits[1..], Step(bits[0], crc))
  }

  lemma {:induction false} CrcAppend(a: seq<bool>, b: seq<bool>, crc: bv16)
    ensures Crc(a + b, crc) == Crc(b, Crc(a, crc))
  {
    if a == [] {
      assert a + b == b;
    } else {
      assert (a + b)[1..] == a[1..] + b;
      CrcAppend(a[1..], b, Step(a[0], crc));
    }
  }

  // ---- the code

  /** One turn of crcu8's loop, with its carry. */
  method ShiftIn(data: bv8, crc: bv16) returns (r: bv16)
    ensures r == Step(data & 1 != 0, crc)
  {
    var x16: bv16 := (if data & 1 != 0 then 1 else 0) ^ (crc & 1);
    r := crc;
    var carry := false;
    if x16 == 1 {
      r := r ^ 0x4002;
      carry := true;
    }
    r := r >> 1;
    if carry { r := r | 0x8000; } else { r := r & 0x7fff; }
  }

  lemma ByteShift(d: bv8, k: nat)
    requires k <= 8
    ensures ByteBits(d >> 1)[..7] == ByteBits(d)[1..]
  {
  }

  /** crcu8. */
  method CrcU8(data: bv8, crc: bv16) returns (r: bv16)
    ensures r == Crc(ByteBits(data), crc)
  {
    hide Step, ByteBits;
    var d := data;
    r := crc;
    var i := 0;
    assert ByteBits(d)[..8] == ByteBits(data)[0..];
    while i < 8
      invariant 0 <= i <= 8 && ByteBits(d)[..8 - i] == ByteBits(data)[i..]
      invariant Crc(ByteBits(data)[i..], r) == Crc(ByteBits(data), crc)
    {
      assert ByteBits(d)[0] == ByteBits(d)[..8 - i][0] == ByteBits(data)[i];
      LowBit(d);
      r := ShiftIn(d, r);
      assert ByteBits(data)[i..][1..] == ByteBits(data)[i + 1..];
      ByteShift(d, i);
      assert ByteBits(d >> 1)[..7 - i] == ByteBits(d >> 1)[..7][..7 - i] == ByteBits(d)[1..][..7 - i] ==
             ByteBits(d)[..8 - i][1..];
      d := d >> 1;
      i := i + 1;
    }
  }

  lemma LowBit(d: bv8)
    ensures ByteBits(d)[0] <==> d & 1 != 0
  {
  }

  lemma LowByte(w: bv16)
    ensures ByteBits((w & 0xFF) as bv8) == Bits(w)[..8]
  {
  }

  lemma HighByte(w: bv16)
    ensures ByteBits((w >> 8) as bv8) == Bits(w)[8..]
  {
  }

  lemma WordBits(w: bv16)
    ensures Bits(w) == ByteBits((w & 0xFF) as bv8) + ByteBits((w >> 8) as bv8)
  {
    hide Bits, ByteBits;
    LowByte(w);
    HighByte(w);
  }

  /** crcu16, and crc16, which only casts. */
  method CrcU16(newval: bv16, crc: bv16) returns (r: bv16)
    ensures r == Crc(Bits(newval), crc)
  {
    hide ByteBits, Bits;
    r := CrcU8((newval & 0xFF) as bv8, crc);
    r := CrcU8((newval >> 8) as bv8, r);
    CrcAppend(ByteBits((newval & 0xFF) as bv8), ByteBits((newval >> 8) as bv8), crc);
    WordBits(newval);
  }

  /** crcu32: the low half first. */
  method CrcU32(newval: bv32, crc: bv16) returns (r: bv16)
    ensures r == Crc(Bits32(newval), crc)
  {
    hide ByteBits, Bits;
    r := CrcU16((newval & 0xFFFF) as bv16, crc);
    r := CrcU16((newval >> 16) as bv16, r);
    CrcAppend(Bits((newval & 0xFFFF) as bv16), Bits((newval >> 16) as bv16), crc);
  }

  /** A message folded through crcu8. */
  method CrcMessage(m: seq<bv8>, crc: bv16) returns (r: bv16)
    ensures r == Crc(MessageBits(m), crc)
  {
    hide ByteBits;
    r := crc;
    for i := 0 to |m|
      invariant r == Crc(MessageBits(m[..i]), crc)
    {
      assert m[..i + 1][..i] == m[..i];
      CrcAppend(MessageBits(m[..i]), ByteBits(m[i]), crc);
      r := CrcU8(m[i], r);
    }
    assert m[..|m|] == m;
  }

  // ---- linear over GF(2)

  function Xor(a: seq<bool>, b: seq<bool>): (r: seq<bool>)
    requires |a| == |b|
    ensures |r| == |a| && forall i | 0 <= i < |a| :: r[i] == (a[i] != b[i])
  {
    seq(|a|, i requires 0 <= i < |a| => a[i] != b[i])
  }

  lemma HalfLinear(c: bv16, d: bv16)
    ensures Half(Plus(c, d)) == Plus(Half(c), Half(d))
  {
  }

  lemma LowLinear(c: bv16, d: bv16)
    ensures Low(Plus(c, d)) <==> Low(c) != Low(d)
  {
  }

  lemma PlusCancels(x: bv16, y: bv16, p: bv16)
    ensures Plus(Plus(x, p), Plus(y, p)) == Plus(x, y)
  {
    XorCancels(x, y, p, Plus(x, p), Plus(y, p));
  }

  lemma XorCancels(x: bv16, y: bv16, p: bv16, u: bv16, v: bv16)
    requires u == x ^ p && v == y ^ p
    ensures u ^ v == x ^ y
  {
  }

  lemma PlusLeft(x: bv16, y: bv16, p: bv16)
    ensures Plus(Plus(x, p), y) == Plus(Plus(x, y), p)
  {
  }

  lemma PlusRight(x: bv16, y: bv16, p: bv16)
    ensures Plus(x, Plus(y, p)) == Plus(Plus(x, y), p)
  {
  }

  lemma ReducedLinear(c: bv16, d: bv16, a: bool, b: bool)
    ensures Reduced(Plus(c, d), a != b) == Plus(Reduced(c, a), Reduced(d, b))
  {
    hide Plus;
    PlusCancels(c, d, POLY);
    PlusLeft(c, d, POLY);
    PlusRight(c, d, POLY);
  }

  lemma StepLinear(a: bool, b: bool, c: bv16, d: bv16)
    ensures Step(a != b, Plus(c, d)) == Plus(Step(a, c), Step(b, d))
  {
    hide Half, Low, Reduced, Plus;
    HalfLinear(c, d);
    LowLinear(c, d);
    ReducedLinear(Half(c), Half(d), a != Low(c), b != Low(d));
  }

  /** The register after the sum of two messages, from the sum of two states, is the sum. */
  lemma {:induction false} Linear(a: seq<bool>, b: seq<bool>, c: bv16, d: bv16)
    requires |a| == |b|
    ensures Crc(Xor(a, b), Plus(c, d)) == Plus(Crc(a, c), Crc(b, d))
  {
    hide Step, Plus;
    if a != [] {
      assert Xor(a, b)[1..] == Xor(a[1..], b[1..]);
      StepLinear(a[0], b[0], c, d);
      Linear(a[1..], b[1..], Step(a[0], c), Step(b[0], d));
    }
  }

  // ---- bijective in the state

  function Top(c: bv16): bool { c & 0x8000 != 0 }

  function Grown(c: bv16, low: bool): bv16 { if low then (c << 1) | 1 else c << 1 }

  /** A step undone: the top bit tells whether the polynomial was added. */
  function Unstep(bit: bool, r: bv16): bv16 { Grown(Reduced(r, Top(r)), bit != Top(r)) }

  lemma HalfTop(c: bv16)
    ensures !Top(Half(c))
  {
  }

  lemma PlusPoly(c: bv16)
    ensures Top(Plus(c, POLY)) <==> !Top(c)
    ensures Plus(Plus(c, POLY), POLY) == c
  {
  }

  lemma ReducedTop(c: bv16, lead: bool)
    ensures Top(Reduced(c, lead)) <==> Top(c) != lead
    ensures Reduced(Reduced(c, lead), lead) == c
  {
    hide Plus, Top;
    PlusPoly(c);
  }

  lemma LowGrown(c: bv16, low: bool)
    ensures Low(Grown(c, low)) == low
  {
    if low { assert ((c << 1) | 1) & 1 != 0; } else { assert (c << 1) & 1 == 0; }
  }

  lemma HalfOfOdd(c: bv16)
    requires !Top(c)
    ensures Half(Grown(c, true)) == c
  {
    ShiftBack(c);
  }

  lemma HalfOfEven(c: bv16)
    requires !Top(c)
    ensures Half(Grown(c, false)) == c
  {
    ShiftBack(c);
  }

  lemma ShiftBack(c: bv16)
    requires c & 0x8000 == 0
    ensures ((c << 1) | 1) >> 1 == c && (c << 1) >> 1 == c
  {
  }

  lemma HalfOfGrown(c: bv16, low: bool)
    requires !Top(c)
    ensures Half(Grown(c, low)) == c
  {
    hide *;
    if low { HalfOfOdd(c); } else { HalfOfEven(c); }
  }

  lemma GrownHalf(c: bv16)
    ensures Grown(Half(c), Low(c)) == c
  {
    ShiftForth(c);
  }

  lemma ShiftForth(c: bv16)
    ensures c & 1 != 0 ==> ((c >> 1) << 1) | 1 == c
    ensures c & 1 == 0 ==> (c >> 1) << 1 == c
  {
  }

  lemma StepBijective(bit: bool, c: bv16)
    ensures Unstep(bit, Step(bit, c)) == c && Step(bit, Unstep(bit, c)) == c
  {
    hide Low, Half, Reduced, Top, Grown, Plus;
    var lead, t := bit != Low(c), Top(c);
    HalfTop(c);
    ReducedTop(Half(c), lead);
    GrownHalf(c);
    ReducedTop(c, t);
    LowGrown(Reduced(c, t), bit != t);
    HalfOfGrown(Reduced(c, t), bit != t);
  }

  function Uncrc(bits: seq<bool>, r: bv16): bv16 {
    if bits == [] then r else Unstep(bits[0], Uncrc(bits[1..], r))
  }

  /** For every message the register's state before can be told from the state after, and
      every state is reached. */
  lemma {:induction false} Bijective(bits: seq<bool>, c: bv16)
    ensures Uncrc(bits, Crc(bits, c)) == c && Crc(bits, Uncrc(bits, c)) == c
  {
    hide Step, Unstep;
    if bits != [] {
      StepBijective(bits[0], c);
      Bijective(bits[1..], Step(bits[0], c));
      StepBijective(bits[0], Uncrc(bits[1..], c));
      Bijective(bits[1..], c);
    }
  }

  // ---- bursts

  function Zeros(n: nat): (r: seq<bool>)
    ensures |r| == n
  {
    seq(n, _ => false)
  }

  /** Up to sixteen bits as a word, the first bit lowest. */
  function Word(bits: seq<bool>): bv16 {
    if bits == [] then 0 else Grown(Word(bits[1..]), bits[0])
  }

  lemma OddBits(c: bv16)
    ensures var b := Bits(c);
            Bits((c << 1) | 1) ==
              [true, b[0], b[1], b[2], b[3], b[4], b[5], b[6], b[7], b[8], b[9], b[10], b[11], b[12], b[13], b[14]]
  {
  }

  lemma EvenBits(c: bv16)
    ensures var b := Bits(c);
            Bits(c << 1) == [false, b[0], b[1], b[2], b[3], b[4], b[5], b[6], b[7], b[8], b[9], b[10], b[11], b[12],
                             b[13], b[14]]
  {
  }

  lemma GrownBits(c: bv16, low: bool)
    ensures Bits(Grown(c, low)) == [low] + Bits(c)[..15]
  {
    hide Bits;
    OddBits(c);
    EvenBits(c);
  }

  lemma TopBit(c: bv16)
    ensures Top(c) == Bits(c)[15]
  {
  }

  lemma ZeroBits()
    ensures Bits(0) == Zeros(16)
  {
  }

  /** The bits of a word of up to sixteen bits. */
  lemma {:induction false} WordIs(bits: seq<bool>)
    requires |bits| <= 16
    ensures Bits(Word(bits)) == bits + Zeros(16 - |bits|)
  {
    hide Bits, Grown;
    if bits == [] {
      ZeroBits();
    } else {
      WordIs(bits[1..]);
      GrownBits(Word(bits[1..]), bits[0]);
      assert Zeros(16 - |bits[1..]|)[..16 - |bits|] == Zeros(16 - |bits|);
    }
  }

  lemma PlusZero(c: bv16)
    ensures Plus(c, 0) == c && Plus(0, c) == c && Plus(c, c) == 0
  {
  }

  lemma FeedStep(bit: bool, c: bv16, t: bv16)
    requires !Top(t)
    ensures Step(false, Plus(c, Grown(t, bit))) == Plus(Step(bit, c), t)
  {
    hide Half, Low, Reduced, Grown, Top, Plus;
    HalfLinear(c, Grown(t, bit));
    LowLinear(c, Grown(t, bit));
    LowGrown(t, bit);
    HalfOfGrown(t, bit);
    ReducedLinear(Half(c), t, bit != Low(c), false);
    NotReduced(t);
  }

  lemma NotReduced(t: bv16)
    ensures Reduced(t, false) == t
  {
  }

  /** Feeding up to sixteen bits is the same as adding them to the register and feeding zeros. */
  lemma {:induction false} FeedZeros(bits: seq<bool>, c: bv16)
    requires |bits| <= 16
    ensures Crc(bits, c) == Crc(Zeros(|bits|), Plus(c, Word(bits)))
  {
    hide Step, Grown, Plus, Top, Bits;
    if bits == [] {
      PlusZero(c);
    } else {
      WordIs(bits[1..]);
      TopBit(Word(bits[1..]));
      FeedStep(bits[0], c, Word(bits[1..]));
      assert Zeros(|bits|)[1..] == Zeros(|bits| - 1);
      FeedZeros(bits[1..], Step(bits[0], c));
    }
  }

  lemma WordZero(bits: seq<bool>)
    requires |bits| <= 16 && Word(bits) == 0
    ensures bits == Zeros(|bits|)
  {
    hide Bits, Word;
    WordIs(bits);
    ZeroBits();
    assert forall i | 0 <= i < |bits| :: bits[i] == (bits + Zeros(16 - |bits|))[i];
  }

  lemma HalfZero()
    ensures Half(0) == 0 && !Low(0)
  {
  }

  lemma {:induction false} ZerosFromZero(n: nat)
    ensures Crc(Zeros(n), 0) == 0
  {
    if n > 0 {
      assert Zeros(n)[1..] == Zeros(n - 1);
      HalfZero();
      NotReduced(0);
      assert Step(false, 0) == 0 by { hide Half, Low, Reduced; }
      hide Step;
      ZerosFromZero(n - 1);
    }
  }

  /** At most sixteen bits, not all zero, do not leave the register at zero. */
  lemma ShortNonzero(w: seq<bool>)
    requires |w| <= 16 && Crc(w, 0) == 0
    ensures w == Zeros(|w|)
  {
    hide *;
    FeedZeros(w, 0);
    PlusZero(Word(w));
    Bijective(Zeros(|w|), Word(w));
    Bijective(Zeros(|w|), 0);
    ZerosFromZero(|w|);
    WordZero(w);
  }

  /** Messages of the same length that differ, and only within sixteen consecutive bits, have
      different checksums. */
  lemma Burst(p: seq<bool>, v: seq<bool>, w: seq<bool>, s: seq<bool>, c: bv16)
    requires |v| == |w| <= 16 && v != w
    ensures Crc(p + v + s, c) != Crc(p + w + s, c)
  {
    hide Crc, Uncrc;
    CrcAppend(p + v, s, c);
    CrcAppend(p, v, c);
    CrcAppend(p + w, s, c);
    CrcAppend(p, w, c);
    var d := Crc(p, c);
    Bijective(s, Crc(v, d));
    Bijective(s, Crc(w, d));
    if Crc(v, d) == Crc(w, d) { SameFeed(v, w, d); }
  }

  lemma SameFeed(v: seq<bool>, w: seq<bool>, d: bv16)
    requires |v| == |w| <= 16 && Crc(v, d) == Crc(w, d)
    ensures v == w
  {
    hide Crc, Plus;
    Linear(v, w, d, d);
    PlusZero(d);
    PlusZero(Crc(v, d));
    ShortNonzero(Xor(v, w));
    assert forall i | 0 <= i < |v| :: !Xor(v, w)[i];
  }

  /** The same for two messages of bytes. */
  lemma BurstMessages(m: seq<bv8>, m': seq<bv8>, p: seq<bool>, v: seq<bool>, w: seq<bool>, s: seq<bool>, c: bv16)
    requires MessageBits(m) == p + v + s && MessageBits(m') == p + w + s && |v| == |w| <= 16 && m != m'
    ensures Crc(MessageBits(m), c) != Crc(MessageBits(m'), c)
  {
    if v == w { SameMessage(m, m'); }
    Burst(p, v, w, s, c);
  }

  lemma {:induction false} SameMessage(m: seq<bv8>, m': seq<bv8>)
    requires MessageBits(m) == MessageBits(m')
    ensures m == m'
  {
    MessageLength(m);
    MessageLength(m');
    if m != [] && m' != [] {
      var a, b := MessageBits(m[..|m| - 1]), MessageBits(m'[..|m'| - 1]);
      var x, y := ByteBits(m[|m| - 1]), ByteBits(m'[|m'| - 1]);
      assert (a + x)[..|a + x| - 8] == a && (a + x)[|a + x| - 8..] == x;
      assert (b + y)[..|b + y| - 8] == b && (b + y)[|b + y| - 8..] == y;
      SameMessage(m[..|m| - 1], m'[..|m'| - 1]);
      SameByte(m[|m| - 1], m'[|m'| - 1]);
      hide ByteBits;
      assert m == m[..|m| - 1] + [m[|m| - 1]] && m' == m'[..|m'| - 1] + [m'[|m'| - 1]];
    }
  }

  lemma SameByte(a: bv8, b: bv8)
    requires ByteBits(a) == ByteBits(b)
    ensures a == b
  {
    var x, y := ByteBits(a), ByteBits(b);
    assert x[0] == y[0] && x[1] == y[1] && x[2] == y[2] && x[3] == y[3] && x[4] == y[4] && x[5] == y[5] &&
           x[6] == y[6] && x[7] == y[7];
  }

  lemma {:induction false} MessageLength(m: seq<bv8>)
    ensures |MessageBits(m)| == 8 * |m|
  {
    if m != [] { MessageLength(m[..|m| - 1]); }
  }

  // ---- long division

  /** The polynomial x^16 + x^15 + x^2 + 1 without its leading term, the highest power first. */
  function PolyBits(): seq<bool> { Bits(POLY) }

  /** Division of polynomials, each a sequence of coefficients with the highest power first:
      the divisor is taken off wherever the leading coefficient is one, and what is left at
      the end is the remainder. */
  function Remainder(d: seq<bool>): seq<bool>
    requires |d| >= 16
    decreases |d|
  {
    if |d| == 16 then d
    else if d[0] then Remainder(Xor(d[1..17], PolyBits()) + d[17..])
    else Remainder(d[1..])
  }

  lemma HalfBits(c: bv16)
    ensures Bits(Half(c)) == Bits(c)[1..] + [false]
    ensures Bits(c)[0] == Low(c)
  {
    hide Bits, Half, Low, Grown, Top;
    GrownHalf(c);
    GrownBits(Half(c), Low(c));
    HalfTop(c);
    TopBit(Half(c));
    assert Bits(Half(c)) == Bits(Half(c))[..15] + [Bits(Half(c))[15]];
  }

  /** The n lowest bits, read off one by one. */
  function LowBits(c: bv16, n: nat): (r: seq<bool>)
    ensures |r| == n
    decreases n
  {
    if n == 0 then [] else [Low(c)] + LowBits(Half(c), n - 1)
  }

  lemma {:induction false} LowBitsOf(c: bv16, n: nat)
    requires n <= 16
    ensures LowBits(c, n) == Bits(c)[..n]
    decreases n
  {
    hide Bits, Low, Half;
    if n > 0 {
      LowBitsOf(Half(c), n - 1);
      HalfBits(c);
      assert [Bits(c)[0]] + (Bits(c)[1..] + [false])[..n - 1] == Bits(c)[..n];
    }
  }

  lemma {:induction false} LowBitsPlus(c: bv16, d: bv16, n: nat)
    ensures LowBits(Plus(c, d), n) == Xor(LowBits(c, n), LowBits(d, n))
    decreases n
  {
    hide Low, Half, Plus;
    if n > 0 {
      LowLinear(c, d);
      HalfLinear(c, d);
      LowBitsPlus(Half(c), Half(d), n - 1);
    }
  }

  /** Bits of a sum. */
  lemma BitsPlus(c: bv16, d: bv16)
    ensures Bits(Plus(c, d)) == Xor(Bits(c), Bits(d))
  {
    hide Bits, Plus, LowBits;
    LowBitsOf(c, 16);
    LowBitsOf(d, 16);
    LowBitsOf(Plus(c, d), 16);
    LowBitsPlus(c, d, 16);
  }

  lemma PolyAdded(c: bv16)
    ensures Bits(Plus(c, POLY)) == Xor(Bits(c), PolyBits())
  {
    hide Bits, Plus;
    BitsPlus(c, POLY);
    PolyList();
    PolyIs();
  }

  lemma PolyIs()
    ensures Bits(POLY) ==
            [true, false, false, false, false, false, false, false, false, false, false, false, false, true, false,
             true]
  {
  }

  lemma PolyList()
    ensures PolyBits() ==
            [true, false, false, false, false, false, false, false, false, false, false, false, false, true, false,
             true]
  {
  }

  /** A dividend whose first sixteen coefficients have the register added. */
  function Loaded(c: bv16, d: seq<bool>): seq<bool>
    requires |d| >= 16
  {
    Xor(d[..16], Bits(c)) + d[16..]
  }

  /** One step of the register is one step of the division. */
  lemma DivisionStep(c: bv16, d: seq<bool>)
    requires |d| > 16
    ensures Remainder(Loaded(c, d)) == Remainder(Loaded(Step(d[0], c), d[1..]))
  {
    hide Bits, Low, Half, Plus, PolyBits;
    var l, lead := Loaded(c, d), d[0] != Low(c);
    assert |PolyBits()| == 16 by { PolyList(); }
    HalfBits(c);
    PolyAdded(Half(c));
    LoadedStep(d, Bits(c), PolyBits());
    assert d[1..][..16] == d[1..17] && d[1..][16..] == d[17..];
    assert l[0] == lead;
  }

  lemma LoadedStep(d: seq<bool>, b: seq<bool>, p: seq<bool>)
    requires |d| > 16 && |b| == |p| == 16
    ensures var l, b' := Xor(d[..16], b) + d[16..], b[1..] + [false];
            l[1..] == Xor(d[1..17], b') + d[17..] && Xor(l[1..17], p) + l[17..] == Xor(d[1..17], Xor(b', p)) + d[17..]
  {
    var l, b' := Xor(d[..16], b) + d[16..], b[1..] + [false];
    assert l[1..17] == Xor(d[1..17], b');
    assert l[17..] == d[17..] && l[1..] == l[1..17] + l[17..];
    assert Xor(l[1..17], p) == Xor(d[1..17], Xor(b', p));
  }

  /** The register is the remainder of the message, with sixteen zeros after it and the
      starting state added to its front, divided by x^16 + x^15 + x^2 + 1. */
  lemma {:induction false} IsRemainder(bits: seq<bool>, c: bv16)
    ensures Bits(Crc(bits, c)) == Remainder(Loaded(c, bits + Zeros(16)))
  {
    var d := bits + Zeros(16);
    if bits == [] {
      assert Loaded(c, d) == Bits(c) by { hide Bits; }
    } else {
      DivisionStep(c, d);
      assert d[1..] == bits[1..] + Zeros(16);
      IsRemainder(bits[1..], Step(bits[0], c));
    }
  }

  // ---- which bit of a word or a message goes when

  function Bit(c: bv16, i: nat): bool
    requires i < 16
  {
    (c >> i) & 1 != 0
  }

  lemma BitZero(c: bv16)
    ensures Bit(c, 0) == Low(c)
  {
  }

  lemma BitOfHalf(c: bv16, i: nat)
    requires 0 < i < 16
    ensures Bit(c, i) == Bit(Half(c), i - 1)
  {
    if i == 1 {} else if i == 2 {} else if i == 3 {} else if i == 4 {} else if i == 5 {} else if i == 6 {}
    else if i == 7 {} else if i == 8 {} else if i == 9 {} else if i == 10 {} else if i == 11 {} else if i == 12 {}
    else if i == 13 {} else if i == 14 {} else { assert i == 15; }
  }

  lemma {:induction false} LowBitsAt(c: bv16, n: nat, i: nat)
    requires i < n <= 16
    ensures LowBits(c, n)[i] == Bit(c, i)
    decreases n
  {
    hide Low, Half, Bit;
    if i == 0 {
      BitZero(c);
    } else {
      BitOfHalf(c, i);
      LowBitsAt(Half(c), n - 1, i - 1);
    }
  }

  lemma BitsAt(c: bv16, i: nat)
    requires i < 16
    ensures Bits(c)[i] == Bit(c, i)
  {
    hide Bits, LowBits, Bit;
    LowBitsOf(c, 16);
    LowBitsAt(c, 16, i);
  }

  function Bit32(w: bv32, i: nat): bool
    requires i < 32
  {
    (w >> i) & 1 != 0
  }

  lemma BitOfHalves(w: bv32, i: nat)
    requires i < 16
    ensures Bit(LowHalf(w), i) == Bit32(w, i) && Bit(HighHalf(w), i) == Bit32(w, i + 16)
  {
    if i == 0 {} else if i == 1 {} else if i == 2 {} else if i == 3 {} else if i == 4 {} else if i == 5 {}
    else if i == 6 {} else if i == 7 {} else if i == 8 {} else if i == 9 {} else if i == 10 {} else if i == 11 {}
    else if i == 12 {} else if i == 13 {} else if i == 14 {} else { assert i == 15; }
  }

  lemma Bits32Are(w: bv32, i: nat)
    requires i < 32
    ensures Bits32(w)[i] == Bit32(w, i)
  {
    hide Bits, Bit, LowHalf, HighHalf, Bit32;
    var j := if i < 16 then i else i - 16;
    BitsAt(LowHalf(w), j);
    BitsAt(HighHalf(w), j);
    BitOfHalves(w, j);
  }

  /** crcu32 feeds bit i of its word as the i-th. */
  lemma Bits32At(w: bv32, i: nat)
    requires i < 32
    ensures Bits32(w)[i] <==> (w >> i) & 1 != 0
  {
    hide Bits32;
    Bits32Are(w, i);
  }

  lemma ByteAt(c: bv8, i: nat)
    requires i < 8
    ensures ByteBits(c)[i] <==> (c >> i) & 1 != 0
  {
    if i == 0 {} else if i == 1 {} else if i == 2 {} else if i == 3 {} else if i == 4 {} else if i == 5 {}
    else if i == 6 {} else { assert i == 7; }
  }

  /** The bits of a message: byte by byte, and in each byte the lowest first. */
  lemma {:induction false} MessageAt(m: seq<bv8>, k: nat, i: nat)
    requires k < |m| && i < 8
    ensures |MessageBits(m)| == 8 * |m| && (MessageBits(m)[8 * k + i] <==> (m[k] >> i) & 1 != 0)
  {
    hide ByteBits;
    MessageLength(m);
    MessageLength(m[..|m| - 1]);
    if k == |m| - 1 { ByteAt(m[k], i); } else { MessageAt(m[..|m| - 1], k, i); }
  }

  /** The number of two bytes, the low one first. */
  function Pair(b0: bv8, b1: bv8): bv16 { b0 as bv16 + 0x100 * b1 as bv16 }

  lemma BytesOfPair(b0: bv8, b1: bv8)
    ensures (Pair(b0, b1) & 0xFF) as bv8 == b0 && (Pair(b0, b1) >> 8) as bv8 == b1
  {
  }

  lemma HalvesOf(b0: bv8, b1: bv8, b2: bv8, b3: bv8, w: bv32)
    requires w == b0 as bv32 + 0x100 * b1 as bv32 + 0x1_0000 * b2 as bv32 + 0x100_0000 * b3 as bv32
    ensures LowHalf(w) == Pair(b0, b1) && HighHalf(w) == Pair(b2, b3)
  {
  }

  lemma TwoBytes(m: seq<bv8>, b0: bv8, b1: bv8)
    ensures MessageBits(m + [b0, b1]) == MessageBits(m) + (ByteBits(b0) + ByteBits(b1))
  {
    hide ByteBits;
    assert (m + [b0, b1])[..|m| + 1] == m + [b0] && (m + [b0])[..|m|] == m;
  }

  lemma PairBits(b0: bv8, b1: bv8)
    ensures Bits(Pair(b0, b1)) == ByteBits(b0) + ByteBits(b1)
  {
    hide ByteBits, Bits, Pair;
    BytesOfPair(b0, b1);
    WordBits(Pair(b0, b1));
  }

  lemma NoMessage()
    ensures MessageBits([]) == []
  {
  }

  /** crcu16 feeds a word as the message of its two bytes, the low one first. */
  lemma WordMessage(b0: bv8, b1: bv8, w: bv16)
    requires w == b0 as bv16 + 0x100 * b1 as bv16
    ensures Bits(w) == MessageBits([b0, b1])
  {
    hide ByteBits, Bits, MessageBits;
    assert w == Pair(b0, b1);
    PairBits(b0, b1);
    NoMessage();
    TwoBytes([], b0, b1);
    assert [] + [b0, b1] == [b0, b1];
  }

  lemma HalvesMessage(b0: bv8, b1: bv8, b2: bv8, b3: bv8)
    ensures Bits(Pair(b0, b1)) + Bits(Pair(b2, b3)) == MessageBits([b0, b1, b2, b3])
  {
    hide *;
    PairBits(b0, b1);
    PairBits(b2, b3);
    NoMessage();
    TwoBytes([], b0, b1);
    TwoBytes([b0, b1], b2, b3);
    assert [] + [b0, b1] == [b0, b1];
    assert [b0, b1] + [b2, b3] == [b0, b1, b2, b3];
  }

  /** crcu32 feeds a word as the message of its four bytes, the lowest first. */
  lemma Word32Message(b0: bv8, b1: bv8, b2: bv8, b3: bv8, w: bv32)
    requires w == b0 as bv32 + 0x100 * b1 as bv32 + 0x1_0000 * b2 as bv32 + 0x100_0000 * b3 as bv32
    ensures Bits32(w) == MessageBits([b0, b1, b2, b3])
  {
    hide Bits, MessageBits, LowHalf, HighHalf, Pair;
    HalvesOf(b0, b1, b2, b3, w);
    HalvesMessage(b0, b1, b2, b3);
  }

  // ---- the check value

  /** The register after eight bits. */
  function ByteFed(b: bv8, c: bv16): bv16 {
    Step(b & 0x80 != 0, Step(b & 0x40 != 0, Step(b & 0x20 != 0, Step(b & 0x10 != 0, Step(b & 0x8 != 0,
      Step(b & 0x4 != 0, Step(b & 0x2 != 0, Step(b & 0x1 != 0, c))))))))
  }

  lemma CrcNone(c: bv16)
    ensures Crc([], c) == c
  {
  }

  lemma CrcOne(s: seq<bool>, c: bv16)
    requires s != []
    ensures Crc(s, c) == Crc(s[1..], Step(s[0], c))
  {
  }

  lemma CrcFour(s: seq<bool>, c: bv16)
    requires |s| == 4
    ensures Crc(s, c) == Step(s[3], Step(s[2], Step(s[1], Step(s[0], c))))
  {
    hide Step, Crc;
    CrcOne(s, c);
    CrcOne(s[1..], Step(s[0], c));
    assert s[1..][1..] == s[2..] && s[2..][1..] == s[3..] && s[3..][1..] == [];
    CrcOne(s[2..], Step(s[1], Step(s[0], c)));
    CrcOne(s[3..], Step(s[2], Step(s[1], Step(s[0], c))));
    CrcNone(Step(s[3], Step(s[2], Step(s[1], Step(s[0], c)))));
  }

  lemma CrcEight(s: seq<bool>, c: bv16)
    requires |s| == 8
    ensures Crc(s, c) ==
            Step(s[7], Step(s[6], Step(s[5], Step(s[4], Step(s[3], Step(s[2], Step(s[1], Step(s[0], c))))))))
  {
    hide Step, Crc;
    assert s == s[..4] + s[4..];
    CrcAppend(s[..4], s[4..], c);
    CrcFour(s[..4], c);
    CrcFour(s[4..], Crc(s[..4], c));
  }

  lemma CrcByte(b: bv8, c: bv16)
    ensures Crc(ByteBits(b), c) == ByteFed(b, c)
  {
    hide Step, Crc;
    CrcEight(ByteBits(b), c);
  }

  lemma NextByte(m: seq<bv8>, b: bv8, c: bv16, d: bv16)
    requires Crc(MessageBits(m), 0) == c && ByteFed(b, c) == d
    ensures Crc(MessageBits(m + [b]), 0) == d
  {
    hide ByteBits, ByteFed;
    assert (m + [b])[..|m|] == m;
    CrcAppend(MessageBits(m), ByteBits(b), 0);
    CrcByte(b, c);
  }

  /** The check value by which this CRC is known: that of the nine digits from 1 to 9. */
  lemma CheckValue()
    ensures Crc(MessageBits([0x31, 0x32, 0x33, 0x34, 0x35, 0x36, 0x37, 0x38, 0x39]), 0) == 0xBB3D
  {
    hide Crc, MessageBits;
    NoMessage();
    CrcNone(0);
    var m: seq<bv8> := [];
    NextByte(m, 0x31, 0x0000, 0xD4C1);
    m := m + [0x31];
    NextByte(m, 0x32, 0xD4C1, 0x4594);
    m := m + [0x32];
    NextByte(m, 0x33, 0x4594, 0xBA04);
    m := m + [0x33];
    NextByte(m, 0x34, 0xBA04, 0x14BA);
    m := m + [0x34];
    NextByte(m, 0x35, 0x14BA, 0xA455);
    m := m + [0x35];
    NextByte(m, 0x36, 0xA455, 0x29E4);
    m := m + [0x36];
    NextByte(m, 0x37, 0x29E4, 0x9D68);
    m := m + [0x37];
    NextByte(m, 0x38, 0x9D68, 0x3C9D);
    m := m + [0x38];
    NextByte(m, 0x39, 0x3C9D, 0xBB3D);
    m := m + [0x39];
    assert m == [0x31, 0x32, 0x33, 0x34, 0x35, 0x36, 0x37, 0x38, 0x39];
  }
}
