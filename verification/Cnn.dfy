/** normal_cnn of c/insn.c: the convolutional network in integers.  Every accumulator is
    declared 32 bits wide, so that what verifies also does not overflow. */
module Cnn {
  import opened Powers
  import opened Quantise

  /** Weights, biases and zero points, as in c/data.c. */
  datatype Net = Net(w1: seq<int>, b1: seq<int>, w2: seq<int>, b2: seq<int>, w3: seq<int>, b3: seq<int>, w4: seq<int>,
                     b4: seq<int>, zpIn: Byte, zpW1: Byte, zp1: Byte, zpW2: Byte, zp2: Byte, zpW3: Byte, zp3: Byte,
                     zpW4: Byte)

  predicate Int8s(s: seq<int>) { forall i | 0 <= i < |s| :: -128 <= s[i] <= 127 }

  predicate Biases(s: seq<int>) { forall i | 0 <= i < |s| :: -0x4000_0000 <= s[i] <= 0x4000_0000 }

  /** Any signed bytes as weights, and biases that leave room for the sums. */
  predicate Ok(net: Net) {
    && |net.w1| == 45 && |net.b1| == 5 && |net.w2| == 225 && |net.b2| == 5 && |net.w3| == 200 && |net.b3| == 10 &&
       |net.w4| == 100 && |net.b4| == 10
    && Int8s(net.w1) && Int8s(net.w2) && Int8s(net.w3) && Int8s(net.w4)
    && Biases(net.b1) && Biases(net.b2) && Biases(net.b3) && Biases(net.b4)
  }

  /** The biases of c/data.c are such. */
  lemma TheBiases()
    ensures Biases([871, -16316, -9617, -21527, -7265]) && Biases([-215, 2005, -2292, 4127, 441])
    ensures Biases([-318, -434, 1721, -288, -879, 872, -658, -665, 2352, -2272]) &&
            Biases([-5, 88, -71, -14, -2, -32, 22, 28, -64, 19])
  {
  }

  // ---- what the network computes

  type Image = (int, int) -> int

  ghost predicate Bytes(x: Image) { forall i, j :: 0 <= x(i, j) <= 255 }

  function At(s: seq<int>, i: int): int { if 0 <= i < |s| then s[i] else 0 }

  /** The maximum of the two by two block at (i, j). */
  function Block(x: Image, i: int, j: int): int {
    Max4(x(i * 2, j * 2), x(i * 2, j * 2 + 1), x(i * 2 + 1, j * 2), x(i * 2 + 1, j * 2 + 1))
  }

  function Pooled(img: Image): Image { (i, j) => Block(img, i, j) }

  function Tap(x: Image, w: seq<int>, off: int, zpX: int, zpW: int, i: int, j: int, t: int): int {
    (x(i + t / 3, j + t % 3) - zpX) * (At(w, off + t) - zpW)
  }

  /** The first t products of a 3 by 3 kernel at (i, j), row by row. */
  function Taps(x: Image, w: seq<int>, off: int, zpX: int, zpW: int, i: int, j: int, t: nat): int {
    if t == 0 then 0 else Taps(x, w, off, zpX, zpW, i, j, t - 1) + Tap(x, w, off, zpX, zpW, i, j, t - 1)
  }

  function Conv1(net: Net, img: Image, n: int): Image {
    (i, j) => Taps(Pooled(img), net.w1, n * 9, net.zpIn, net.zpW1, i, j, 9) + At(net.b1, n)
  }

  function Act(x: int, zp: Byte): Byte { Relu(QuantConv1(x, zp), zp) }

  function Acted(x: Image, zp: Byte): Image { (i, j) => Act(x(i, j), zp) }

  /** Channel n after the first stage: requantised and rectified before pooling, as the trained
      network does, or after. */
  function Stage1(net: Net, img: Image, early: bool, n: int): Image {
    (i, j) => if early then Block(Acted(Conv1(net, img, n), net.zp1), i, j)
      else Act(Block(Conv1(net, img, n), i, j), net.zp1)
  }

  /** The products of the first m input channels for output channel o. */
  function Channels(net: Net, img: Image, early: bool, o: int, i: int, j: int, m: nat): int {
    if m == 0 then 0
    else
      Channels(net, img, early, o, i, j, m - 1) +
      Taps(Stage1(net, img, early, m - 1), net.w2, (o * 5 + (m - 1)) * 9, net.zp1, net.zpW2, i, j, 9)
  }

  /** The bias is added once. */
  function Conv2(net: Net, img: Image, early: bool, o: int): Image {
    (i, j) => Channels(net, img, early, o, i, j, 5) + At(net.b2, o)
  }

  function Act2(x: int, zp: Byte): Byte { Relu(QuantConv2(x, zp), zp) }

  function Acted2(x: Image, zp: Byte): Image { (i, j) => Act2(x(i, j), zp) }

  function Stage2(net: Net, img: Image, early: bool, o: int): Image {
    (i, j) => if early then Block(Acted2(Conv2(net, img, early, o), net.zp2), i, j)
      else Act2(Block(Conv2(net, img, early, o), i, j), net.zp2)
  }

  /** The five 2 by 2 planes in a row. */
  function Flat(net: Net, img: Image, early: bool, k: int): int { Stage2(net, img, early, k / 4)(k % 4 / 2, k % 2) }

  function Dense1(net: Net, img: Image, early: bool, i: int, m: nat): int {
    if m == 0 then 0
    else
      Dense1(net, img, early, i, m - 1) +
      (At(net.w3, i * 20 + (m - 1)) - net.zpW3) * (Flat(net, img, early, m - 1) - net.zp2)
  }

  function Dense(net: Net, img: Image, early: bool, i: int): int { Dense1(net, img, early, i, 20) + At(net.b3, i) }

  function Hidden(net: Net, img: Image, early: bool, i: int): Byte { QuantFc1(Dense(net, img, early, i), net.zp3) }

  function Dense2(net: Net, img: Image, early: bool, i: int, m: nat): int {
    if m == 0 then 0
    else
      Dense2(net, img, early, i, m - 1) +
      (At(net.w4, i * 10 + (m - 1)) - net.zpW4) * (Hidden(net, img, early, m - 1) - net.zp3)
  }

  /** The score of digit i. */
  function Score(net: Net, img: Image, early: bool, i: int): int { Dense2(net, img, early, i, 10) + At(net.b4, i) }

  // ---- the definitions read off, index by index

  /** A pooled pixel is one of its four, and none of them is larger. */
  lemma PooledAt(img: Image, i: int, j: int)
    ensures var p := Pooled(img)(i, j);
            && p >= img(2 * i, 2 * j) && p >= img(2 * i, 2 * j + 1) && p >= img(2 * i + 1, 2 * j) &&
               p >= img(2 * i + 1, 2 * j + 1)
            && p in {img(2 * i, 2 * j), img(2 * i, 2 * j + 1), img(2 * i + 1, 2 * j), img(2 * i + 1, 2 * j + 1)}
  {
    hide Max4;
    MaxIs(img(i * 2, j * 2), img(i * 2, j * 2 + 1), img(i * 2 + 1, j * 2), img(i * 2 + 1, j * 2 + 1));
  }

  /** The inputs of the hidden layer: the five planes row by row. */
  lemma FlatAt(net: Net, img: Image, early: bool, o: nat, i: nat, j: nat)
    requires i < 2 && j < 2
    ensures Flat(net, img, early, 4 * o + 2 * i + j) == Stage2(net, img, early, o)(i, j)
  {
    hide Stage2;
    var t := 4 * o + 2 * i + j;
    DivModUnique(t, 4, o, 2 * i + j);
    DivModUnique(2 * i + j, 2, i, j);
    DivModUnique(t, 2, 2 * o + i, j);
  }

  /** The hidden layer: twenty products and the bias, requantised. */
  lemma HiddenIs(net: Net, img: Image, early: bool, i: nat)
    requires Ok(net) && i < 10
    ensures Hidden(net, img, early, i) == QuantFc1(Dense1(net, img, early, i, 20) + net.b3[i], net.zp3)
    ensures Dense1(net, img, early, i, 0) == 0
  {
    hide Flat, QuantFc1;
  }

  lemma NextDense1(net: Net, img: Image, early: bool, i: nat, j: nat)
    requires Ok(net) && i < 10 && j < 20
    ensures Dense1(net, img, early, i, j + 1) == Dense1(net, img, early, i, j) +
            (net.w3[20 * i + j] - net.zpW3) * (Flat(net, img, early, j) - net.zp2)
  {
    hide Flat, Int8s, Biases;
  }

  /** A score: ten products and the bias. */
  lemma ScoreIs(net: Net, img: Image, early: bool, i: nat)
    requires Ok(net) && i < 10
    ensures Score(net, img, early, i) == Dense2(net, img, early, i, 10) + net.b4[i]
    ensures Dense2(net, img, early, i, 0) == 0
  {
    hide Hidden;
  }

  lemma NextDense2(net: Net, img: Image, early: bool, i: nat, j: nat)
    requires Ok(net) && i < 10 && j < 10
    ensures Dense2(net, img, early, i, j + 1) == Dense2(net, img, early, i, j) +
            (net.w4[10 * i + j] - net.zpW4) * (Hidden(net, img, early, j) - net.zp3)
  {
    hide Hidden, Int8s, Biases;
  }

  // ---- the two orders agree

  lemma Stage1Agrees(net: Net, img: Image, n: int, i: int, j: int)
    ensures Stage1(net, img, true, n)(i, j) == Stage1(net, img, false, n)(i, j)
  {
    hide Max4, Relu, QuantConv1, Conv1;
    var c := Conv1(net, img, n);
    PoolCommutes1(c(i * 2, j * 2), c(i * 2, j * 2 + 1), c(i * 2 + 1, j * 2), c(i * 2 + 1, j * 2 + 1), net.zp1);
  }

  lemma {:induction false} TapsAgree(x: Image, y: Image, w: seq<int>, off: int, zpX: int, zpW: int, i: int, j: int,
                                     t: nat)
    requires forall u, v :: x(u, v) == y(u, v)
    ensures Taps(x, w, off, zpX, zpW, i, j, t) == Taps(y, w, off, zpX, zpW, i, j, t)
  {
    if t > 0 { TapsAgree(x, y, w, off, zpX, zpW, i, j, t - 1); }
  }

  lemma {:induction false} ChannelsAgree(net: Net, img: Image, o: int, i: int, j: int, m: nat)
    ensures Channels(net, img, true, o, i, j, m) == Channels(net, img, false, o, i, j, m)
  {
    hide Stage1, Taps;
    if m > 0 {
      ChannelsAgree(net, img, o, i, j, m - 1);
      var x, y := Stage1(net, img, true, m - 1), Stage1(net, img, false, m - 1);
      forall u, v ensures x(u, v) == y(u, v) { Stage1Agrees(net, img, m - 1, u, v); }
      TapsAgree(x, y, net.w2, (o * 5 + (m - 1)) * 9, net.zp1, net.zpW2, i, j, 9);
    }
  }

  lemma Stage2Agrees(net: Net, img: Image, o: int, i: int, j: int)
    ensures Stage2(net, img, true, o)(i, j) == Stage2(net, img, false, o)(i, j)
  {
    hide *;
    var c := Conv2(net, img, true, o);
    Conv2Agrees(net, img, o, i * 2, j * 2);
    Conv2Agrees(net, img, o, i * 2, j * 2 + 1);
    Conv2Agrees(net, img, o, i * 2 + 1, j * 2);
    Conv2Agrees(net, img, o, i * 2 + 1, j * 2 + 1);
    ReadStage2(net, img, o, i, j);
    PoolCommutes2(c(i * 2, j * 2), c(i * 2, j * 2 + 1), c(i * 2 + 1, j * 2), c(i * 2 + 1, j * 2 + 1), net.zp2);
  }

  lemma ReadStage2(net: Net, img: Image, o: int, i: int, j: int)
    ensures var c, z := Conv2(net, img, true, o), net.zp2;
            Stage2(net, img, true, o)(i, j) ==
            Max4(Relu(QuantConv2(c(i * 2, j * 2), z), z), Relu(QuantConv2(c(i * 2, j * 2 + 1), z), z),
                 Relu(QuantConv2(c(i * 2 + 1, j * 2), z), z), Relu(QuantConv2(c(i * 2 + 1, j * 2 + 1), z), z))
    ensures var c, z := Conv2(net, img, false, o), net.zp2;
            Stage2(net, img, false, o)(i, j) ==
            Relu(QuantConv2(Max4(c(i * 2, j * 2), c(i * 2, j * 2 + 1), c(i * 2 + 1, j * 2), c(i * 2 + 1, j * 2 + 1)),
                            z), z)
  {
    hide Max4, Relu, QuantConv2, Conv2;
  }

  lemma Conv2Agrees(net: Net, img: Image, o: int, i: int, j: int)
    ensures Conv2(net, img, true, o)(i, j) == Conv2(net, img, false, o)(i, j)
  {
    hide *;
    ChannelsAgree(net, img, o, i, j, 5);
    ReadConv2(net, img, true, o, i, j);
    ReadConv2(net, img, false, o, i, j);
  }

  lemma ReadConv2(net: Net, img: Image, early: bool, o: int, i: int, j: int)
    ensures Conv2(net, img, early, o)(i, j) == Channels(net, img, early, o, i, j, 5) + At(net.b2, o)
  {
  }

  lemma FlatAgrees(net: Net, img: Image, k: int)
    ensures Flat(net, img, true, k) == Flat(net, img, false, k)
  {
    hide Stage2;
    Stage2Agrees(net, img, k / 4, k % 4 / 2, k % 2);
  }

  lemma {:induction false} Dense1Agrees(net: Net, img: Image, i: int, m: nat)
    ensures Dense1(net, img, true, i, m) == Dense1(net, img, false, i, m)
  {
    hide Flat;
    if m > 0 {
      Dense1Agrees(net, img, i, m - 1);
      FlatAgrees(net, img, m - 1);
    }
  }

  lemma HiddenAgrees(net: Net, img: Image, i: int)
    ensures Hidden(net, img, true, i) == Hidden(net, img, false, i)
  {
    hide Dense1;
    Dense1Agrees(net, img, i, 20);
    assert Dense(net, img, true, i) == Dense(net, img, false, i);
  }

  lemma {:induction false} Dense2Agrees(net: Net, img: Image, i: int, m: nat)
    ensures Dense2(net, img, true, i, m) == Dense2(net, img, false, i, m)
  {
    hide Hidden;
    if m > 0 {
      Dense2Agrees(net, img, i, m - 1);
      HiddenAgrees(net, img, m - 1);
    }
  }

  /** Pooling before or after requantising makes no difference to any score, for any image. */
  lemma OrderIrrelevant(net: Net, img: Image, i: int)
    ensures Score(net, img, true, i) == Score(net, img, false, i)
  {
    hide Dense2;
    Dense2Agrees(net, img, i, 10);
  }

  // ---- no accumulator overflows

  lemma Small(x: int, w: int)
    requires -255 <= x <= 255 && -383 <= w <= 127
    ensures -97665 <= x * w <= 97665
  {
    if x >= 0 { Within(x, w, 255, 383); } else { Within(-x, w, 255, 383); }
  }

  lemma Within(x: int, w: int, m: int, n: int)
    requires 0 <= x <= m && 0 <= n && -n <= w <= n
    ensures -(m * n) <= x * w <= m * n && (-x) * w == -(x * w)
  {
    if w >= 0 {
      ProductMonotone(x, m, w);
      ProductMonotone(w, n, m);
    } else {
      ProductMonotone(x, m, -w);
      ProductMonotone(-w, n, m);
      assert x * w == -(x * (-w));
    }
  }

  lemma TapBound(x: Image, w: seq<int>, off: int, zpX: Byte, zpW: Byte, i: int, j: int, t: int)
    requires Bytes(x) && Int8s(w)
    ensures -97665 <= Tap(x, w, off, zpX, zpW, i, j, t) <= 97665
  {
    assert 0 <= x(i + t / 3, j + t % 3) <= 255;
    Small(x(i + t / 3, j + t % 3) - zpX, At(w, off + t) - zpW);
  }

  lemma {:induction false} TapsBound(x: Image, w: seq<int>, off: int, zpX: Byte, zpW: Byte, i: int, j: int, t: nat)
    requires Bytes(x) && Int8s(w)
    ensures -97665 * t <= Taps(x, w, off, zpX, zpW, i, j, t) <= 97665 * t
  {
    if t > 0 {
      TapsBound(x, w, off, zpX, zpW, i, j, t - 1);
      TapBound(x, w, off, zpX, zpW, i, j, t - 1);
      hide Tap, Bytes, Int8s;
    }
  }

  // ---- the code

  /** Plane p of a holds the image x. */
  ghost predicate Holds(a: array3<Byte>, p: nat, x: Image)
    reads a
  {
    p < a.Length0 && forall i, j | 0 <= i < a.Length1 && 0 <= j < a.Length2 :: a[p, i, j] == x(i, j)
  }

  /** The two inner loops of conv1_cal and conv2_cal. */
  method TapSum(input: array3<Byte>, p: nat, w: seq<int>, off: nat, zpX: Byte, zpW: Byte, i: nat, j: nat,
                ghost x: Image)
    returns (sum: Int32)
    requires Holds(input, p, x) && Bytes(x) && Int8s(w) && off + 9 <= |w| && i + 3 <= input.Length1 &&
             j + 3 <= input.Length2
    ensures sum == Taps(x, w, off, zpX, zpW, i, j, 9)
  {
    hide Taps, Int8s, Bytes;
    sum := 0;
    TapsZero(x, w, off, zpX, zpW, i, j);
    for k := 0 to 3
      invariant sum == Taps(x, w, off, zpX, zpW, i, j, 3 * k)
    {
      for l := 0 to 3
        invariant sum == Taps(x, w, off, zpX, zpW, i, j, 3 * k + l)
      {
        NextTap(x, w, off, zpX, zpW, i, j, k, l);
        sum := sum + (input[p, i + k, j + l] - zpX) * (w[off + 3 * k + l] - zpW);
      }
    }
  }

  lemma TapsZero(x: Image, w: seq<int>, off: int, zpX: Byte, zpW: Byte, i: int, j: int)
    ensures Taps(x, w, off, zpX, zpW, i, j, 0) == 0
  {
  }

  lemma OneTap(x: Image, w: seq<int>, off: nat, zpX: Byte, zpW: Byte, i: int, j: int, t: nat)
    requires off + t < |w|
    ensures Taps(x, w, off, zpX, zpW, i, j, t + 1) ==
            Taps(x, w, off, zpX, zpW, i, j, t) + (x(i + t / 3, j + t % 3) - zpX) * (w[off + t] - zpW)
  {
  }

  lemma NextTap(x: Image, w: seq<int>, off: nat, zpX: Byte, zpW: Byte, i: int, j: int, k: nat, l: nat)
    requires k < 3 && l < 3 && Bytes(x) && Int8s(w) && off + 9 <= |w|
    ensures Taps(x, w, off, zpX, zpW, i, j, 3 * k + l + 1) == Taps(x, w, off, zpX, zpW, i, j, 3 * k + l) +
            (x(i + k, j + l) - zpX) * (w[off + 3 * k + l] - zpW)
    ensures -0x10_0000 <= Taps(x, w, off, zpX, zpW, i, j, 3 * k + l + 1) <= 0x10_0000
  {
    hide Bytes, Int8s, Taps;
    var t := 3 * k + l;
    TapsBound(x, w, off, zpX, zpW, i, j, t + 1);
    DivModUnique(t, 3, k, l);
    OneTap(x, w, off, zpX, zpW, i, j, t);
  }

  lemma ReadConv1(net: Net, img: Image, n: int, i: int, j: int)
    ensures Conv1(net, img, n)(i, j) == Taps(Pooled(img), net.w1, n * 9, net.zpIn, net.zpW1, i, j, 9) + At(net.b1, n)
  {
  }

  ghost predicate Conv1Done(a: array3<Int32>, net: Net, img: Image, n: int)
    reads a
  {
    a.Length0 == 5 && a.Length1 == 12 && a.Length2 == 12 && n <= 5 &&
    forall m, i, j | 0 <= m < n && 0 <= i < 12 && 0 <= j < 12 :: a[m, i, j] == Conv1(net, img, m)(i, j)
  }

  /** conv1_cal, for kernel n. */
  method Conv1Cal(input: array3<Byte>, output: array3<Int32>, n: nat, net: Net, ghost img: Image)
    requires Ok(net) && n < 5 && Bytes(Pooled(img)) && Holds(input, 0, Pooled(img)) &&
             input.Length1 == input.Length2 == 14
    requires Conv1Done(output, net, img, n) && (input as object) != (output as object)
    modifies output
    ensures Conv1Done(output, net, img, n + 1)
  {
    hide Taps, Conv1, Pooled, Int8s, Biases, Bytes;
    for i := 0 to 12
      invariant Conv1Done(output, net, img, n) && Holds(input, 0, Pooled(img))
      invariant forall i', j | 0 <= i' < i && 0 <= j < 12 :: output[n, i', j] == Conv1(net, img, n)(i', j)
    {
      for j := 0 to 12
        invariant Conv1Done(output, net, img, n) && Holds(input, 0, Pooled(img))
        invariant forall i', j' | 0 <= i' < i && 0 <= j' < 12 :: output[n, i', j'] == Conv1(net, img, n)(i', j')
        invariant forall j' | 0 <= j' < j :: output[n, i, j'] == Conv1(net, img, n)(i, j')
      {
        var sum := TapSum(input, 0, net.w1, n * 9, net.zpIn, net.zpW1, i, j, Pooled(img));
        ReadConv1(net, img, n, i, j);
        Room(Pooled(img), net.w1, n * 9, net.zpIn, net.zpW1, i, j, net.b1, n);
        output[n, i, j] := sum + net.b1[n];
      }
    }
  }

  lemma Room(x: Image, w: seq<int>, off: int, zpX: Byte, zpW: Byte, i: int, j: int, b: seq<int>, n: nat)
    requires Bytes(x) && Int8s(w) && Biases(b) && n < |b|
    ensures -0x4010_0000 <= Taps(x, w, off, zpX, zpW, i, j, 9) + b[n] <= 0x4010_0000 && b[n] == At(b, n)
  {
    hide Taps, Bytes;
    TapsBound(x, w, off, zpX, zpW, i, j, 9);
  }

  /** The first pooling. */
  method Pool1(input: array2<Byte>, ghost img: Image) returns (pool1: array3<Byte>)
    requires input.Length0 == input.Length1 == 28 &&
             forall i, j | 0 <= i < 28 && 0 <= j < 28 :: input[i, j] == img(i, j)
    ensures fresh(pool1) && pool1.Length0 == 1 && pool1.Length1 == pool1.Length2 == 14 && Holds(pool1, 0, Pooled(img))
  {
    hide Max4;
    pool1 := new Byte[1, 14, 14];
    for i := 0 to 14
      invariant forall i', j | 0 <= i' < i && 0 <= j < 14 :: pool1[0, i', j] == Block(img, i', j)
    {
      for j := 0 to 14
        invariant forall i', j' | 0 <= i' < i && 0 <= j' < 14 :: pool1[0, i', j'] == Block(img, i', j')
        invariant forall j' | 0 <= j' < j :: pool1[0, i, j'] == Block(img, i, j')
      {
        var m := Pool(input[i * 2, j * 2], input[i * 2, j * 2 + 1], input[i * 2 + 1, j * 2],
                      input[i * 2 + 1, j * 2 + 1]);
        pool1[0, i, j] := m;
      }
    }
  }

  lemma PooledBytes(img: Image)
    requires Bytes(img)
    ensures Bytes(Pooled(img))
  {
    forall i, j ensures 0 <= Pooled(img)(i, j) <= 255 {
      MaxIs(img(i * 2, j * 2), img(i * 2, j * 2 + 1), img(i * 2 + 1, j * 2), img(i * 2 + 1, j * 2 + 1));
      hide Max4;
    }
  }

  lemma ReadStage1(net: Net, img: Image, n: int, i: int, j: int)
    ensures var c, z := Conv1(net, img, n), net.zp1;
            Stage1(net, img, false, n)(i, j) ==
            Relu(QuantConv1(Max4(c(i * 2, j * 2), c(i * 2, j * 2 + 1), c(i * 2 + 1, j * 2), c(i * 2 + 1, j * 2 + 1)),
                            z), z)
  {
    hide Max4, Relu, QuantConv1, Conv1;
  }

  lemma Stage1Bytes(net: Net, img: Image, n: int)
    ensures Bytes(Stage1(net, img, false, n))
  {
    forall i, j ensures 0 <= Stage1(net, img, false, n)(i, j) <= 255 {
      ReadStage1(net, img, n, i, j);
      hide Stage1, Relu, Max4, QuantConv1;
    }
  }

  ghost predicate Stage1Done(a: array3<Byte>, net: Net, img: Image, n: int)
    reads a
  {
    a.Length0 == 5 && a.Length1 == 6 && a.Length2 == 6 && n <= 5 &&
    forall m, i, j | 0 <= m < n && 0 <= i < 6 && 0 <= j < 6 :: a[m, i, j] == Stage1(net, img, false, m)(i, j)
  }

  /** The first sum of quant_conv1 has room. */
  lemma BlockRoom(net: Net, img: Image, n: nat, i: int, j: int)
    requires Ok(net) && Bytes(img) && n < 5
    ensures -0x4010_0000 <= Block(Conv1(net, img, n), i, j) <= 0x4010_0000
  {
    hide Max4, Conv1;
    var c := Conv1(net, img, n);
    PooledBytes(img);
    ElementRoom(net, img, n, i * 2, j * 2);
    ElementRoom(net, img, n, i * 2, j * 2 + 1);
    ElementRoom(net, img, n, i * 2 + 1, j * 2);
    ElementRoom(net, img, n, i * 2 + 1, j * 2 + 1);
    MaxIs(c(i * 2, j * 2), c(i * 2, j * 2 + 1), c(i * 2 + 1, j * 2), c(i * 2 + 1, j * 2 + 1));
  }

  lemma ElementRoom(net: Net, img: Image, n: nat, i: int, j: int)
    requires Ok(net) && Bytes(Pooled(img)) && n < 5
    ensures -0x4010_0000 <= Conv1(net, img, n)(i, j) <= 0x4010_0000
  {
    hide Conv1, Taps, Pooled;
    ReadConv1(net, img, n, i, j);
    Room(Pooled(img), net.w1, n * 9, net.zpIn, net.zpW1, i, j, net.b1, n);
  }

  /** The second pooling, with its requantisation, for plane n. */
  method PoolQuant1(output: array3<Int32>, pool2: array3<Byte>, n: nat, net: Net, ghost img: Image)
    requires Ok(net) && Bytes(img) && n < 5 && Conv1Done(output, net, img, 5) && Stage1Done(pool2, net, img, n) &&
             (output as object) != (pool2 as object)
    modifies pool2
    ensures Stage1Done(pool2, net, img, n + 1)
  {
    hide Max4, Relu, QuantConv1, Conv1, Stage1, Int8s, Biases, Bytes;
    for i := 0 to 6
      invariant Conv1Done(output, net, img, 5) && Stage1Done(pool2, net, img, n)
      invariant forall i', j | 0 <= i' < i && 0 <= j < 6 :: pool2[n, i', j] == Stage1(net, img, false, n)(i', j)
    {
      for j := 0 to 6
        invariant Conv1Done(output, net, img, 5) && Stage1Done(pool2, net, img, n)
        invariant forall i', j' | 0 <= i' < i && 0 <= j' < 6 :: pool2[n, i', j'] == Stage1(net, img, false, n)(i', j')
        invariant forall j' | 0 <= j' < j :: pool2[n, i, j'] == Stage1(net, img, false, n)(i, j')
      {
        var m := Pool(output[n, i * 2, j * 2], output[n, i * 2, j * 2 + 1], output[n, i * 2 + 1, j * 2],
                      output[n, i * 2 + 1, j * 2 + 1]);
        ReadStage1(net, img, n, i, j);
        BlockRoom(net, img, n, i, j);
        var q := QuantiseConv1(m, net.zp1);
        pool2[n, i, j] := Relu(q, net.zp1);
      }
    }
  }

  // ---- the second convolution

  /** An element of output channel o after the first m input channels. */
  function Conv2At(net: Net, img: Image, o: int, i: int, j: int, m: nat): int {
    Channels(net, img, false, o, i, j, m) + if m > 0 then At(net.b2, o) else 0
  }

  lemma {:induction false} ChannelsBound(net: Net, img: Image, o: int, i: int, j: int, m: nat)
    requires Int8s(net.w2)
    ensures -878985 * m <= Channels(net, img, false, o, i, j, m) <= 878985 * m
  {
    hide Taps, Stage1, Bytes, Int8s;
    if m > 0 {
      ChannelsBound(net, img, o, i, j, m - 1);
      Stage1Bytes(net, img, m - 1);
      TapsBound(Stage1(net, img, false, m - 1), net.w2, (o * 5 + (m - 1)) * 9, net.zp1, net.zpW2, i, j, 9);
    }
  }

  lemma NextChannel(net: Net, img: Image, o: nat, i: int, j: int, m: nat)
    requires Ok(net) && o < 5 && m < 5
    ensures Conv2At(net, img, o, i, j, m + 1) ==
            Conv2At(net, img, o, i, j, m) +
              Taps(Stage1(net, img, false, m), net.w2, (o * 5 + m) * 9, net.zp1, net.zpW2, i, j, 9) +
              (if m == 0 then net.b2[o] else 0)
    ensures -0x4100_0000 <= Conv2At(net, img, o, i, j, m + 1) <= 0x4100_0000
    ensures m == 0 ==> Conv2At(net, img, o, i, j, m) == 0
    ensures -0x10_0000 <= Taps(Stage1(net, img, false, m), net.w2, (o * 5 + m) * 9, net.zp1, net.zpW2, i, j, 9) <=
            0x10_0000
    ensures -0x4000_0000 <= net.b2[o] <= 0x4000_0000
  {
    assert -0x4000_0000 <= net.b2[o] <= 0x4000_0000 && At(net.b2, o) == net.b2[o];
    assert Int8s(net.w2);
    hide *;
    ChannelsBound(net, img, o, i, j, m + 1);
    Stage1Bytes(net, img, m);
    TapsBound(Stage1(net, img, false, m), net.w2, (o * 5 + m) * 9, net.zp1, net.zpW2, i, j, 9);
    MoreChannels(net, img, o, i, j, m);
  }

  lemma MoreChannels(net: Net, img: Image, o: int, i: int, j: int, m: nat)
    ensures Conv2At(net, img, o, i, j, m + 1) == Channels(net, img, false, o, i, j, m + 1) + At(net.b2, o)
    ensures Conv2At(net, img, o, i, j, m) == Channels(net, img, false, o, i, j, m) + if m > 0 then At(net.b2, o) else 0
    ensures Channels(net, img, false, o, i, j, m + 1) ==
            Channels(net, img, false, o, i, j, m) +
              Taps(Stage1(net, img, false, m), net.w2, (o * 5 + m) * 9, net.zp1, net.zpW2, i, j, 9)
    ensures m == 0 ==> Channels(net, img, false, o, i, j, m) == 0
  {
    hide Taps, Stage1;
  }

  ghost predicate Conv2Done(a: array3<Int32>, net: Net, img: Image, o: int)
    reads a
  {
    a.Length0 == 5 && a.Length1 == 4 && a.Length2 == 4 && o <= 5 &&
    forall p, i, j | 0 <= p < o && 0 <= i < 4 && 0 <= j < 4 :: a[p, i, j] == Conv2At(net, img, p, i, j, 5)
  }

  /** Channel o after m input channels, and one more for the elements before (i, j). */
  ghost predicate Conv2Part(a: array3<Int32>, net: Net, img: Image, o: int, m: nat, i: int, j: int)
    reads a
  {
    && Conv2Done(a, net, img, o) && 0 <= o < 5 && StillZero(a, o + 1)
    && forall u, v | 0 <= u < 4 && 0 <= v < 4 ::
       a[o, u, v] == Conv2At(net, img, o, u, v, if u < i || (u == i && v < j) then m + 1 else m)
  }

  /** conv2_cal, for input channel m of output channel o. */
  method Conv2Cal(input: array3<Byte>, output: array3<Int32>, o: nat, m: nat, net: Net, ghost img: Image)
    requires Ok(net) && o < 5 && m < 5 && Stage1Done(input, net, img, 5) && Conv2Part(output, net, img, o, m, 0, 0)
    requires (input as object) != (output as object)
    modifies output
    ensures Conv2Part(output, net, img, o, m + 1, 0, 0)
  {
    hide Taps, Stage1, Int8s, Biases, Bytes, Conv2At;
    Stage1Bytes(net, img, m);
    for i := 0 to 4
      invariant Stage1Done(input, net, img, 5) && Conv2Part(output, net, img, o, m, i, 0)
    {
      for j := 0 to 4
        invariant Stage1Done(input, net, img, 5) && Conv2Part(output, net, img, o, m, i, j)
      {
        var sum := TapSum(input, m, net.w2, (o * 5 + m) * 9, net.zp1, net.zpW2, i, j, Stage1(net, img, false, m));
        NextChannel(net, img, o, i, j, m);
        Accumulate(output, o, i, j, sum, m, net.b2[o], net, img);
      }
    }
  }

  /** The two additions, the second of them for the first input channel only. */
  method Accumulate(output: array3<Int32>, o: nat, i: nat, j: nat, sum: Int32, m: nat, bias: Int32, net: Net,
                    ghost img: Image)
    requires o < 5 && i < 4 && j < 4 && m < 5 && Conv2Part(output, net, img, o, m, i, j)
    requires Conv2At(net, img, o, i, j, m + 1) == Conv2At(net, img, o, i, j, m) + sum + (if m == 0 then bias else 0)
    requires -0x4100_0000 <= Conv2At(net, img, o, i, j, m + 1) <= 0x4100_0000 && -0x10_0000 <= sum <= 0x10_0000
    requires m == 0 ==> Conv2At(net, img, o, i, j, m) == 0
    modifies output
    ensures Conv2Part(output, net, img, o, m, i, j + 1)
  {
    hide Conv2At;
    output[o, i, j] := output[o, i, j] + sum;
    if m == 0 { output[o, i, j] := output[o, i, j] + bias; }
  }

  lemma Conv2Complete(net: Net, img: Image, o: int, i: int, j: int)
    ensures Conv2At(net, img, o, i, j, 5) == Conv2(net, img, false, o)(i, j)
  {
    hide *;
    ReadConv2(net, img, false, o, i, j);
    MoreChannels(net, img, o, i, j, 4);
  }

  ghost predicate Stage2Done(a: array3<Byte>, net: Net, img: Image, n: int)
    reads a
  {
    a.Length0 == 5 && a.Length1 == 2 && a.Length2 == 2 && n <= 5 &&
    forall m, i, j | 0 <= m < n && 0 <= i < 2 && 0 <= j < 2 :: a[m, i, j] == Stage2(net, img, false, m)(i, j)
  }

  /** One element of the third pooling, with its requantisation. */
  method PoolElement(output: array3<Int32>, n: nat, i: nat, j: nat, net: Net, ghost img: Image) returns (v: Byte)
    requires n < 5 && i < 2 && j < 2 && Conv2Done(output, net, img, 5)
    ensures v == Stage2(net, img, false, n)(i, j)
  {
    hide Max4, Relu, QuantConv2, Conv2, Stage2, Conv2At;
    Conv2Complete(net, img, n, i * 2, j * 2);
    Conv2Complete(net, img, n, i * 2, j * 2 + 1);
    Conv2Complete(net, img, n, i * 2 + 1, j * 2);
    Conv2Complete(net, img, n, i * 2 + 1, j * 2 + 1);
    ReadStage2(net, img, n, i, j);
    var m := Pool(output[n, i * 2, j * 2], output[n, i * 2, j * 2 + 1], output[n, i * 2 + 1, j * 2],
                  output[n, i * 2 + 1, j * 2 + 1]);
    var q := QuantiseConv2(m, net.zp2);
    v := Relu(q, net.zp2);
  }

  /** The third pooling for plane n. */
  method PoolQuant2(output: array3<Int32>, pool3: array3<Byte>, n: nat, net: Net, ghost img: Image)
    requires n < 5 && Conv2Done(output, net, img, 5) && Stage2Done(pool3, net, img, n) &&
             (output as object) != (pool3 as object)
    modifies pool3
    ensures Stage2Done(pool3, net, img, n + 1)
  {
    hide Stage2, Conv2At;
    for i := 0 to 2
      invariant Conv2Done(output, net, img, 5) && Stage2Done(pool3, net, img, n)
      invariant forall i', j | 0 <= i' < i && 0 <= j < 2 :: pool3[n, i', j] == Stage2(net, img, false, n)(i', j)
    {
      for j := 0 to 2
        invariant Conv2Done(output, net, img, 5) && Stage2Done(pool3, net, img, n)
        invariant forall i', j' | 0 <= i' < i && 0 <= j' < 2 :: pool3[n, i', j'] == Stage2(net, img, false, n)(i', j')
        invariant forall j' | 0 <= j' < j :: pool3[n, i, j'] == Stage2(net, img, false, n)(i, j')
      {
        var v := PoolElement(output, n, i, j, net, img);
        pool3[n, i, j] := v;
      }
    }
  }

  // ---- the dense layers

  /** The planes in a row. */
  method Flatten(pool3: array3<Byte>, net: Net, ghost img: Image) returns (flat: array<Byte>)
    requires Stage2Done(pool3, net, img, 5)
    ensures fresh(flat) && flat.Length == 20 && forall k | 0 <= k < 20 :: flat[k] == Flat(net, img, false, k)
  {
    hide Stage2;
    flat := new Byte[20];
    var idx := 0;
    for j := 0 to 5
      invariant idx == 4 * j && forall k | 0 <= k < idx :: flat[k] == Flat(net, img, false, k)
    {
      for k := 0 to 2
        invariant idx == 4 * j + 2 * k && forall t | 0 <= t < idx :: flat[t] == Flat(net, img, false, t)
      {
        for l := 0 to 2
          invariant idx == 4 * j + 2 * k + l && forall t | 0 <= t < idx :: flat[t] == Flat(net, img, false, t)
        {
          FlatAt(net, img, false, j, k, l);
          flat[idx] := pool3[j, k, l];
          idx := idx + 1;
        }
      }
    }
  }

  lemma FlatByte(net: Net, img: Image, k: int)
    ensures 0 <= Flat(net, img, false, k) <= 255
  {
    hide Stage2, Conv2, Max4, QuantConv2, Relu;
    ReadStage2(net, img, k / 4, k % 4 / 2, k % 2);
  }

  lemma {:induction false} Dense1Bound(net: Net, img: Image, i: int, m: nat)
    requires Int8s(net.w3)
    ensures -97665 * m <= Dense1(net, img, false, i, m) <= 97665 * m
  {
    hide Flat;
    if m > 0 {
      Dense1Bound(net, img, i, m - 1);
      FlatByte(net, img, m - 1);
      Small(Flat(net, img, false, m - 1) - net.zp2, At(net.w3, i * 20 + (m - 1)) - net.zpW3);
      Commute(At(net.w3, i * 20 + (m - 1)) - net.zpW3, Flat(net, img, false, m - 1) - net.zp2);
    }
  }

  lemma Commute(x: int, y: int)
    ensures x * y == y * x
  {
  }

  lemma {:induction false} Dense2Bound(net: Net, img: Image, i: int, m: nat)
    requires Int8s(net.w4)
    ensures -97665 * m <= Dense2(net, img, false, i, m) <= 97665 * m
  {
    hide Hidden;
    if m > 0 {
      Dense2Bound(net, img, i, m - 1);
      Small(Hidden(net, img, false, m - 1) - net.zp3, At(net.w4, i * 10 + (m - 1)) - net.zpW4);
      Commute(At(net.w4, i * 10 + (m - 1)) - net.zpW4, Hidden(net, img, false, m - 1) - net.zp3);
    }
  }

  /** The first dense layer, requantised. */
  method Fc1(flat: array<Byte>, net: Net, ghost img: Image) returns (quantised: array<Byte>)
    requires Ok(net) && flat.Length == 20 && forall k | 0 <= k < 20 :: flat[k] == Flat(net, img, false, k)
    ensures fresh(quantised) && quantised.Length == 10 &&
            forall k | 0 <= k < 10 :: quantised[k] == Hidden(net, img, false, k)
  {
    hide Flat, Int8s, Biases, Dense, QuantFc1;
    quantised := new Byte[10];
    var out := new Int32[10];
    for i := 0 to 10
      invariant forall k | 0 <= k < i :: out[k] == Dense(net, img, false, k)
    {
      var sum := DenseRow1(flat, i, net, img);
      Dense1Room(net, img, i);
      out[i] := sum + net.b3[i];
    }
    for i := 0 to 10
      invariant forall k | 0 <= k < i :: quantised[k] == Hidden(net, img, false, k)
      invariant forall k | 0 <= k < 10 :: out[k] == Dense(net, img, false, k)
    {
      var q := QuantiseFc1(out[i], net.zp3);
      quantised[i] := q;
    }
  }

  lemma Dense1Room(net: Net, img: Image, i: nat)
    requires Ok(net) && i < 10
    ensures -0x4100_0000 <= Dense1(net, img, false, i, 20) + net.b3[i] <= 0x4100_0000
    ensures Dense(net, img, false, i) == Dense1(net, img, false, i, 20) + net.b3[i]
  {
    hide Dense1;
    assert -0x4000_0000 <= net.b3[i] <= 0x4000_0000;
    Dense1Bound(net, img, i, 20);
  }

  method DenseRow1(flat: array<Byte>, i: nat, net: Net, ghost img: Image) returns (sum: Int32)
    requires Ok(net) && i < 10 && flat.Length == 20 && forall k | 0 <= k < 20 :: flat[k] == Flat(net, img, false, k)
    ensures sum == Dense1(net, img, false, i, 20)
  {
    hide Flat, Int8s, Biases;
    sum := 0;
    for j := 0 to 20
      invariant sum == Dense1(net, img, false, i, j)
    {
      Dense1Bound(net, img, i, j + 1);
      sum := sum + (net.w3[i * 20 + j] - net.zpW3) * (flat[j] - net.zp2);
    }
  }

  method DenseRow2(hidden: array<Byte>, i: nat, net: Net, ghost img: Image) returns (sum: Int32)
    requires Ok(net) && i < 10 && hidden.Length == 10 &&
             forall k | 0 <= k < 10 :: hidden[k] == Hidden(net, img, false, k)
    ensures sum == Dense2(net, img, false, i, 10)
  {
    hide Hidden, Int8s, Biases;
    sum := 0;
    for j := 0 to 10
      invariant sum == Dense2(net, img, false, i, j)
    {
      Dense2Bound(net, img, i, j + 1);
      sum := sum + (net.w4[i * 10 + j] - net.zpW4) * (hidden[j] - net.zp3);
    }
  }

  lemma Dense2Room(net: Net, img: Image, i: nat)
    requires Ok(net) && i < 10
    ensures -0x4100_0000 <= Dense2(net, img, false, i, 10) + net.b4[i] <= 0x4100_0000
    ensures Score(net, img, false, i) == Dense2(net, img, false, i, 10) + net.b4[i]
  {
    hide Dense2;
    assert -0x4000_0000 <= net.b4[i] <= 0x4000_0000;
    Dense2Bound(net, img, i, 10);
  }

  /** The second dense layer. */
  method Fc2(hidden: array<Byte>, net: Net, ghost img: Image) returns (out: array<Int32>)
    requires Ok(net) && hidden.Length == 10 && forall k | 0 <= k < 10 :: hidden[k] == Hidden(net, img, false, k)
    ensures fresh(out) && out.Length == 10 && forall k | 0 <= k < 10 :: out[k] == Score(net, img, false, k)
  {
    hide Hidden, Int8s, Biases, Dense2, Score;
    out := new Int32[10];
    for i := 0 to 10
      invariant forall k | 0 <= k < i :: out[k] == Score(net, img, false, k)
    {
      var sum := DenseRow2(hidden, i, net, img);
      Dense2Room(net, img, i);
      out[i] := sum + net.b4[i];
    }
  }

  /** The first of the largest. */
  method ArgMax(out: array<Int32>) returns (maxIdx: nat)
    requires out.Length == 10
    ensures maxIdx < 10 && (forall i | 0 <= i < 10 :: out[i] <= out[maxIdx]) &&
            forall i | 0 <= i < maxIdx :: out[i] < out[maxIdx]
  {
    var maxOut := out[0];
    maxIdx := 0;
    for i := 1 to 10
      invariant maxIdx < i && maxOut == out[maxIdx]
      invariant (forall k | 0 <= k < i :: out[k] <= maxOut) && forall k | 0 <= k < maxIdx :: out[k] < maxOut
    {
      if out[i] > maxOut {
        maxOut := out[i];
        maxIdx := i;
      }
    }
  }

  // ---- the network

  method ConvStage1(input: array2<Byte>, net: Net, ghost img: Image) returns (pool2: array3<Byte>)
    requires Ok(net) && Bytes(img) && input.Length0 == input.Length1 == 28 &&
             forall i, j | 0 <= i < 28 && 0 <= j < 28 :: input[i, j] == img(i, j)
    ensures fresh(pool2) && Stage1Done(pool2, net, img, 5)
  {
    hide Stage1, Conv1, Bytes, Int8s, Biases, Pooled;
    PooledBytes(img);
    var pool1 := Pool1(input, img);
    var output := new Int32[5, 12, 12]((_, _, _) => 0);
    for n := 0 to 5
      invariant Conv1Done(output, net, img, n) && Holds(pool1, 0, Pooled(img))
    {
      Conv1Cal(pool1, output, n, net, img);
    }
    pool2 := new Byte[5, 6, 6]((_, _, _) => 0);
    for n := 0 to 5
      invariant Stage1Done(pool2, net, img, n) && Conv1Done(output, net, img, 5)
    {
      PoolQuant1(output, pool2, n, net, img);
    }
  }

  lemma NoChannels(net: Net, img: Image, o: int, i: int, j: int)
    ensures Conv2At(net, img, o, i, j, 0) == 0
  {
  }

  ghost predicate StillZero(a: array3<Int32>, o: int)
    reads a
  {
    a.Length0 == 5 && a.Length1 == 4 && a.Length2 == 4 &&
      forall p, i, j | o <= p < 5 && 0 <= i < 4 && 0 <= j < 4 && 0 <= p :: a[p, i, j] == 0
  }

  /** All input channels of output channel o. */
  method Conv2Channel(pool2: array3<Byte>, output: array3<Int32>, o: nat, net: Net, ghost img: Image)
    requires Ok(net) && o < 5 && Stage1Done(pool2, net, img, 5) && Conv2Done(output, net, img, o) &&
             StillZero(output, o) && (pool2 as object) != (output as object)
    modifies output
    ensures Conv2Done(output, net, img, o + 1) && StillZero(output, o + 1)
  {
    hide Stage1, Conv2At, Int8s, Biases;
    forall i, j ensures Conv2At(net, img, o, i, j, 0) == 0 { NoChannels(net, img, o, i, j); }
    for m := 0 to 5
      invariant Conv2Part(output, net, img, o, m, 0, 0) && Stage1Done(pool2, net, img, 5)
    {
      Conv2Cal(pool2, output, o, m, net, img);
    }
  }

  method ConvStage2(pool2: array3<Byte>, net: Net, ghost img: Image) returns (pool3: array3<Byte>)
    requires Ok(net) && Stage1Done(pool2, net, img, 5)
    ensures fresh(pool3) && Stage2Done(pool3, net, img, 5)
  {
    hide Stage1, Stage2, Conv2At, Int8s, Biases;
    var output := new Int32[5, 4, 4]((_, _, _) => 0);
    for o := 0 to 5
      invariant Conv2Done(output, net, img, o) && StillZero(output, o) && Stage1Done(pool2, net, img, 5)
    {
      Conv2Channel(pool2, output, o, net, img);
    }
    pool3 := new Byte[5, 2, 2]((_, _, _) => 0);
    for n := 0 to 5
      invariant Stage2Done(pool3, net, img, n) && Conv2Done(output, net, img, 5)
    {
      PoolQuant2(output, pool3, n, net, img);
    }
  }

  /** normal_cnn: for every image, the first digit with the largest score, where the scores are
      those of the trained order of requantisation, rectification and pooling. */
  method NormalCnn(input: array2<Byte>, net: Net, ghost img: Image) returns (maxIdx: nat)
    requires Ok(net) && Bytes(img) && input.Length0 == input.Length1 == 28 &&
             forall i, j | 0 <= i < 28 && 0 <= j < 28 :: input[i, j] == img(i, j)
    ensures maxIdx < 10
    ensures forall i | 0 <= i < 10 :: Score(net, img, true, i) <= Score(net, img, true, maxIdx)
    ensures forall i | 0 <= i < maxIdx :: Score(net, img, true, i) < Score(net, img, true, maxIdx)
  {
    hide Stage1, Stage2, Ok, Flat, Hidden, Score;
    var pool2 := ConvStage1(input, net, img);
    var pool3 := ConvStage2(pool2, net, img);
    var flat := Flatten(pool3, net, img);
    var hidden := Fc1(flat, net, img);
    var out := Fc2(hidden, net, img);
    maxIdx := ArgMax(out);
    forall i ensures Score(net, img, true, i) == Score(net, img, false, i) { OrderIrrelevant(net, img, i); }
  }
}
