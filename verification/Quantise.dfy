/** The integer requantisation and pooling of the CNN reference, c/insn.c.  A right shift of
    a negative int32 rounds towards minus infinity, as Dafny's division by a positive number
    does. */
module Quantise {
  import opened Powers

  type Byte = x: int | 0 <= x < 0x100

  type Int32 = x: int | -0x8000_0000 <= x < 0x8000_0000

  function Max(a: int, b: int): int { if b > a then b else a }

  function Max4(a: int, b: int, c: int, d: int): int { Max(Max(Max(a, b), c), d) }

  /** pool1_cal and pool23_cal: a running maximum. */
  method Pool(in1: Int32, in2: Int32, in3: Int32, in4: Int32) returns (max: Int32)
    ensures max == Max4(in1, in2, in3, in4)
    ensures max >= in1 && max >= in2 && max >= in3 && max >= in4 && max in {in1, in2, in3, in4}
  {
    max := in1;
    if in2 > max { max := in2; }
    if in3 > max { max := in3; }
    if in4 > max { max := in4; }
  }

  function Clamp(x: int): (r: Byte) { if x < 0 then 0 else if x > 255 then 255 else x }

  /** The three shift forms, before zero point and clamp. */
  function Shifted1(acc: int): int { (acc + acc / 256) / 512 }

  function Shifted2(acc: int): int { acc / 256 + acc / 1024 - acc / 4096 }

  function Shifted3(acc: int): int { acc / 256 + acc / 1024 }

  function QuantConv1(acc: int, zp: int): Byte { Clamp(Shifted1(acc) + zp) }

  function QuantConv2(acc: int, zp: int): Byte { Clamp(Shifted2(acc) + zp) }

  function QuantFc1(acc: int, zp: int): Byte { Clamp(Shifted3(acc) + zp) }

  /** The larger of its two arguments. */
  function Relu(x: Byte, zp: Byte): (r: Byte)
    ensures r >= x && r >= zp && r in {x, zp}
  {
    if x < zp then zp else x
  }

  /** quant_conv1: acc * 257/131072, rounded down, and the zero point, cut off at the ends of a
      byte.  The first sum needs room for the 1/256 that it adds. */
  method QuantiseConv1(acc: Int32, zp: Byte) returns (r: Byte)
    requires -0x7F00_0000 <= acc <= 0x7F00_0000
    ensures r == QuantConv1(acc, zp)
    ensures var v := 257 * acc / 131072 + zp;
            (v < 0 ==> r == 0) && (0 <= v <= 255 ==> r == v) && (v > 255 ==> r == 255)
  {
    Exact1(acc);
    var tmp: Int32 := acc + acc / 256;
    var y: Int32 := tmp / 512 + zp;
    r := Clamp(y);
  }

  /** quant_conv2: acc * 19/4096 and the zero point, in a byte: between its ends at most 3/4
      above the share and less than 2 below it, and at an end on that side of it. */
  method QuantiseConv2(acc: Int32, zp: Byte) returns (r: Byte)
    ensures r == QuantConv2(acc, zp)
    ensures r > 0 ==> -3072 <= 19 * acc - 4096 * (r - zp)
    ensures r < 255 ==> 19 * acc - 4096 * (r - zp) <= 7149
  {
    Slack2(acc);
    var y: Int32 := acc / 256 + acc / 1024 - acc / 4096;
    y := y + zp;
    r := Clamp(y);
  }

  /** quant_fc1: acc * 5/1024 and the zero point, likewise, never above the share. */
  method QuantiseFc1(acc: Int32, zp: Byte) returns (r: Byte)
    ensures r == QuantFc1(acc, zp)
    ensures r > 0 ==> 0 <= 5 * acc - 1024 * (r - zp)
    ensures r < 255 ==> 5 * acc - 1024 * (r - zp) <= 2043
  {
    Slack3(acc);
    var y: Int32 := acc / 256 + acc / 1024;
    y := y + zp;
    r := Clamp(y);
  }

  // ---- monotone

  lemma Monotone1(a: int, b: int)
    requires a <= b
    ensures Shifted1(a) <= Shifted1(b)
  {
  }

  /** The last term is subtracted, and the form is monotone all the same. */
  lemma Monotone2(a: int, b: int)
    requires a <= b
    ensures Shifted2(a) <= Shifted2(b)
  {
    var x, y := a / 1024, b / 1024;
    assert a / 4096 == x / 4 && b / 4096 == y / 4;
    assert x - x / 4 <= y - y / 4;
  }

  lemma Monotone3(a: int, b: int)
    requires a <= b
    ensures Shifted3(a) <= Shifted3(b)
  {
    assert a / 256 <= b / 256;
    assert a / 1024 <= b / 1024;
  }

  lemma QuantMonotone(a: int, b: int, zp: Byte)
    requires a <= b
    ensures QuantConv1(a, zp) <= QuantConv1(b, zp) && QuantConv2(a, zp) <= QuantConv2(b, zp) &&
            QuantFc1(a, zp) <= QuantFc1(b, zp)
  {
    hide Shifted1, Shifted2, Shifted3;
    Monotone1(a, b);
    Monotone2(a, b);
    Monotone3(a, b);
  }

  /** Pooling the accumulators first is the same as pooling what they become: the code's order
      and the trained network's. */
  lemma PoolCommutes1(a: int, b: int, c: int, d: int, zp: Byte)
    ensures Relu(QuantConv1(Max4(a, b, c, d), zp), zp) ==
            Max4(Relu(QuantConv1(a, zp), zp), Relu(QuantConv1(b, zp), zp), Relu(QuantConv1(c, zp), zp),
                 Relu(QuantConv1(d, zp), zp))
  {
    hide Max4, Shifted1;
    var m := Max4(a, b, c, d);
    MaxIs(a, b, c, d);
    Monotone1(a, m);
    Monotone1(b, m);
    Monotone1(c, m);
    Monotone1(d, m);
    MaxImage(Relu(QuantConv1(a, zp), zp), Relu(QuantConv1(b, zp), zp), Relu(QuantConv1(c, zp), zp),
             Relu(QuantConv1(d, zp), zp), Relu(QuantConv1(m, zp), zp));
  }

  lemma MaxIs(a: int, b: int, c: int, d: int)
    ensures var m := Max4(a, b, c, d); a <= m && b <= m && c <= m && d <= m && (m == a || m == b || m == c || m == d)
  {
  }

  lemma MaxImage(a: int, b: int, c: int, d: int, m: int)
    requires a <= m && b <= m && c <= m && d <= m && (m == a || m == b || m == c || m == d)
    ensures m == Max4(a, b, c, d)
  {
  }

  lemma PoolCommutes2(a: int, b: int, c: int, d: int, zp: Byte)
    ensures Relu(QuantConv2(Max4(a, b, c, d), zp), zp) ==
            Max4(Relu(QuantConv2(a, zp), zp), Relu(QuantConv2(b, zp), zp), Relu(QuantConv2(c, zp), zp),
                 Relu(QuantConv2(d, zp), zp))
  {
    hide Max4, Shifted2;
    var m := Max4(a, b, c, d);
    MaxIs(a, b, c, d);
    Monotone2(a, m);
    Monotone2(b, m);
    Monotone2(c, m);
    Monotone2(d, m);
    MaxImage(Relu(QuantConv2(a, zp), zp), Relu(QuantConv2(b, zp), zp), Relu(QuantConv2(c, zp), zp),
             Relu(QuantConv2(d, zp), zp), Relu(QuantConv2(m, zp), zp));
  }

  // ---- how close to the scales

  /** The first form is acc * 257/131072, rounded down, exactly. */
  lemma Exact1(acc: int)
    ensures Shifted1(acc) == 257 * acc / 131072
  {
    var q, r := acc / 256, acc % 256;
    var tmp := acc + q;
    var y, s := tmp / 512, tmp % 512;
    assert 257 * acc == 131072 * y + (r + 256 * s);
    DivModUnique(257 * acc, 131072, y, r + 256 * s);
  }

  /** The second is acc * 19/4096, at most 3/4 above it and less than 2 below it; both bounds are met. */
  lemma Slack2(acc: int)
    ensures -3072 <= 19 * acc - 4096 * Shifted2(acc) <= 7149
  {
    var q, r := acc / 4096, acc % 4096;
    var u, v := r / 1024, r % 1024;
    var s, w := v / 256, v % 256;
    DivModUnique(acc, 1024, 4 * q + u, v);
    DivModUnique(acc, 256, 16 * q + 4 * u + s, w);
    assert acc == 4096 * q + 1024 * u + 256 * s + w;
    assert Shifted2(acc) == 19 * q + 5 * u + s - 0;
  }

  lemma Slack2Met()
    ensures 19 * 3072 - 4096 * Shifted2(3072) == -3072 && 19 * 1023 - 4096 * Shifted2(1023) == 7149
  {
  }

  /** The third is acc * 5/1024, not above it and less than 2 below it; both bounds are met. */
  lemma Slack3(acc: int)
    ensures 0 <= 5 * acc - 1024 * Shifted3(acc) <= 2043
  {
    var q, r := acc / 1024, acc % 1024;
    var s, w := r / 256, r % 256;
    DivModUnique(acc, 256, 4 * q + s, w);
  }

  lemma Slack3Met()
    ensures 5 * 0 - 1024 * Shifted3(0) == 0 && 5 * 1023 - 1024 * Shifted3(1023) == 2043
  {
  }

  /** The second form exactly, by the digits of the accumulator in its three scales. */
  lemma Digits2(q: int, u: nat, s: nat, w: nat, zp: Byte)
    requires u < 4 && s < 4 && w < 256
    ensures var v, r := 19 * q + 5 * u + s + zp, QuantConv2(4096 * q + 1024 * u + 256 * s + w, zp);
            (v < 0 ==> r == 0) && (0 <= v <= 255 ==> r == v) && (v > 255 ==> r == 255)
  {
    var acc := 4096 * q + 1024 * u + 256 * s + w;
    DivModUnique(acc, 4096, q, 1024 * u + 256 * s + w);
    DivModUnique(acc, 1024, 4 * q + u, 256 * s + w);
    DivModUnique(acc, 256, 16 * q + 4 * u + s, w);
  }

  /** The third form exactly, likewise. */
  lemma Digits3(q: int, s: nat, w: nat, zp: Byte)
    requires s < 4 && w < 256
    ensures var v, r := 5 * q + s + zp, QuantFc1(1024 * q + 256 * s + w, zp);
            (v < 0 ==> r == 0) && (0 <= v <= 255 ==> r == v) && (v > 255 ==> r == 255)
  {
    var acc := 1024 * q + 256 * s + w;
    DivModUnique(acc, 1024, q, 256 * s + w);
    DivModUnique(acc, 256, 4 * q + s, w);
  }

  function Abs(x: int): int { if x < 0 then -x else x }

  /** The scales that the forms stand for: 1/510, 1/216 and 1/206, each met up to the stated
      share of the accumulator and the rounding. */
  lemma Scales(acc: int)
    ensures 131072 * Abs(510 * Shifted1(acc) - acc) <= 2 * Abs(acc) + 510 * 131071
    ensures 4096 * Abs(216 * Shifted2(acc) - acc) <= 8 * Abs(acc) + 216 * 7149
    ensures 1024 * Abs(206 * Shifted3(acc) - acc) <= 6 * Abs(acc) + 206 * 2043
  {
    hide Shifted1, Shifted2, Shifted3;
    Exact1(acc);
    Slack2(acc);
    Slack3(acc);
  }
}
