/** ihex_line and ihex_parse of gdbserver.py: records of Intel HEX. */
module IntelHex {
  import opened Powers

  type Byte = x: nat | x < 0x100

  datatype Result<T> = Ok(value: T) | Error

  /** What a record says. */
  datatype Record = Record(recordType: int, address: int, data: seq<Byte>)

  // ---- digits

  function Digit(n: nat): char
    requires n < 16
  {
    "0123456789ABCDEF"[n]
  }

  function DigitValue(c: char): Result<nat> {
    if '0' <= c <= '9' then Ok(c as int - '0' as int)
    else if 'A' <= c <= 'F' then Ok(c as int - 'A' as int + 10)
    else if 'a' <= c <= 'f' then Ok(c as int - 'a' as int + 10)
    else Error
  }

  lemma DigitRoundTrip(n: nat)
    requires n < 16
    ensures DigitValue(Digit(n)) == Ok(n)
  {
  }

  function Pow16(w: nat): (r: nat)
    ensures r > 0
  {
    if w == 0 then 1 else 16 * Pow16(w - 1)
  }

  /** n with w hexadecimal digits. */
  function Hex(n: nat, w: nat): (s: string)
    ensures |s| == w
  {
    if w == 0 then "" else Hex(n / 16, w - 1) + [Digit(n % 16)]
  }

  /** What %0wX prints: w digits, or as many as n has if those are more. */
  function Padded(n: nat, w: nat): (s: string)
    ensures |s| >= w
    decreases n
  {
    if n < Pow16(w) then Hex(n, w) else Padded(n / 16, w) + [Digit(n % 16)]
  }

  /** The value of a string of digits. */
  function Number(s: string): Result<nat> {
    if s == "" then Error
    else if |s| == 1 then DigitValue(s[0])
    else
      match (Number(s[..|s| - 1]), DigitValue(s[|s| - 1]))
      case (Ok(hi), Ok(lo)) => Ok(hi * 16 + lo)
      case _ => Error
  }

  lemma {:induction false} NumberOfHex(n: nat, w: nat)
    requires w >= 1 && n < Pow16(w)
    ensures Number(Hex(n, w)) == Ok(n)
  {
    hide Digit, DigitValue;
    DigitRoundTrip(n % 16);
    if w == 1 {
      assert Hex(n / 16, 0) == "";
    } else {
      assert n / 16 < Pow16(w - 1);
      NumberOfHex(n / 16, w - 1);
      assert Hex(n, w)[..w - 1] == Hex(n / 16, w - 1);
    }
  }

  lemma {:induction false} NumberBelow(s: string, w: nat)
    requires |s| <= w && Number(s).Ok?
    ensures Number(s).value < Pow16(w)
  {
    hide DigitValue;
    DigitBelow(s[|s| - 1]);
    if |s| > 1 { NumberBelow(s[..|s| - 1], w - 1); }
  }

  // ---- int(s, 16)

  predicate Blank(c: char) { c == ' ' || '\t' <= c <= '\r' }

  /** s without blanks on either side. */
  function Trimmed(s: string): (t: string)
    ensures |t| <= |s|
    decreases |s|
  {
    if s != "" && Blank(s[0]) then Trimmed(s[1..])
    else if s != "" && Blank(s[|s| - 1]) then Trimmed(s[..|s| - 1])
    else s
  }

  function Unprefixed(s: string): (t: string)
    ensures |t| <= |s|
  {
    if |s| >= 2 && s[0] == '0' && (s[1] == 'x' || s[1] == 'X') then s[2..] else s
  }

  function Signed(n: int, negative: bool): int { if negative then -n else n }

  /** Blanks around the number, a sign and a prefix are all allowed. */
  function IntOf(s: string): Result<int> {
    var t := Trimmed(s);
    var u := if t != "" && (t[0] == '-' || t[0] == '+') then t[1..] else t;
    match Number(Unprefixed(u))
    case Ok(n) => Ok(Signed(n, t != "" && t[0] == '-'))
    case Error => Error
  }

  predicate Plain(s: string) { forall i | 0 <= i < |s| :: '0' <= s[i] <= '9' || 'A' <= s[i] <= 'F' }

  lemma {:induction false} HexPlain(n: nat, w: nat)
    ensures Plain(Hex(n, w))
  {
    if w > 0 { HexPlain(n / 16, w - 1); }
  }

  lemma PlainInt(s: string)
    requires Plain(s) && Number(s).Ok?
    ensures IntOf(s) == Ok(Number(s).value)
  {
    hide Number;
    assert Trimmed(s) == s && Unprefixed(s) == s;
    if s != "" { assert !Blank(s[0]) && s[0] != '-' && s[0] != '+'; }
  }

  lemma IntOfHex(n: nat, w: nat)
    requires w >= 1 && n < Pow16(w)
    ensures IntOf(Hex(n, w)) == Ok(n)
  {
    hide *;
    HexPlain(n, w);
    NumberOfHex(n, w);
    PlainInt(Hex(n, w));
  }

  lemma IntBelow(s: string, w: nat)
    requires |s| <= w && IntOf(s).Ok?
    ensures IntOf(s).value < Pow16(w)
  {
    hide Number;
    var t := Trimmed(s);
    var u := if t != "" && (t[0] == '-' || t[0] == '+') then t[1..] else t;
    NumberBelow(Unprefixed(u), w);
  }

  lemma DigitBelow(c: char)
    ensures DigitValue(c).Ok? ==> DigitValue(c).value < 16
  {
  }

  lemma Widths()
    ensures Pow16(2) == 0x100 && Pow16(4) == 0x1_0000
  {
    assert Pow16(1) == 16;
    assert Pow16(3) == 0x1000;
  }

  // ---- a record

  function Total(s: seq<Byte>): nat { if s == [] then 0 else Total(s[..|s| - 1]) + s[|s| - 1] }

  function HexBytes(s: seq<Byte>): (r: string)
    ensures |r| == 2 * |s|
  {
    if s == [] then "" else HexBytes(s[..|s| - 1]) + Hex(s[|s| - 1], 2)
  }

  /** The bytes before the checksum. */
  function Body(r: Record): seq<Byte>
    requires Fits(r)
  {
    [|r.data|, r.address / 0x100, r.address % 0x100, r.recordType] + r.data
  }

  /** A 16-bit address, an 8-bit type and fewer than 128 bytes of data. */
  predicate Fits(r: Record) { 0 <= r.address < 0x1_0000 && 0 <= r.recordType < 0x100 && |r.data| < 128 }

  function Check(r: Record): Byte
    requires Fits(r)
  {
    (0x100 - Total(Body(r))) % 0x100
  }

  /** What is added up before the data: of an address of more than two bytes, all but the
      last byte at once. */
  function Sum(r: Record): nat
    requires r.address >= 0 && r.recordType >= 0
  {
    |r.data| + r.address % 0x100 + r.address / 0x100 + r.recordType + Total(r.data)
  }

  /** The line printed for any record: address and type have more digits if they need them. */
  function Line(r: Record): string
    requires r.address >= 0 && r.recordType >= 0
  {
    ":" + Padded(|r.data|, 2) + Padded(r.address, 4) + Padded(r.recordType, 2) + HexBytes(r.data)
      + (Hex((0x100 - Sum(r)) % 0x100, 2) + "\n")
  }

  lemma {:induction false} TotalAppend(s: seq<Byte>, t: seq<Byte>)
    ensures Total(s + t) == Total(s) + Total(t)
  {
    if t == [] {
      assert s + t == s;
    } else {
      assert (s + t)[..|s + t| - 1] == s + t[..|t| - 1];
      TotalAppend(s, t[..|t| - 1]);
    }
  }

  lemma {:induction false} HexBytesAppend(s: seq<Byte>, t: seq<Byte>)
    ensures HexBytes(s + t) == HexBytes(s) + HexBytes(t)
  {
    hide Hex;
    if t == [] {
      assert s + t == s;
    } else {
      assert (s + t)[..|s + t| - 1] == s + t[..|t| - 1];
      HexBytesAppend(s, t[..|t| - 1]);
    }
  }

  /** All bytes of a line add up to nothing, modulo 256. */
  lemma ChecksumZero(r: Record)
    requires Fits(r)
    ensures Total(Body(r) + [Check(r)]) % 0x100 == 0
  {
    TotalAppend(Body(r), [Check(r)]);
    assert Total([Check(r)]) == Check(r);
    hide Total, Body;
  }

  /** An address of four digits is two bytes. */
  lemma HexWord(n: nat)
    ensures Hex(n, 4) == Hex(n / 0x100, 2) + Hex(n % 0x100, 2)
  {
    hide Digit;
    assert Hex(n, 4) == Hex(n / 16, 3) + [Digit(n % 16)];
    assert n / 16 / 16 == n / 0x100 && n / 16 % 16 == n % 0x100 / 16 && n % 0x100 % 16 == n % 16;
    assert Hex(n / 16, 3) == Hex(n / 0x100, 2) + [Digit(n / 16 % 16)];
    assert Hex(n % 0x100, 2) == Hex(n % 0x100 / 16, 1) + [Digit(n % 16)];
    assert Hex(n % 0x100 / 16, 1) == Hex(n % 0x100 / 16 / 16, 0) + [Digit(n % 0x100 / 16 % 16)];
  }

  lemma Head(r: Record)
    requires Fits(r)
    ensures HexBytes(Body(r)) == Hex(|r.data|, 2) + Hex(r.address, 4) + Hex(r.recordType, 2) + HexBytes(r.data)
    ensures Total(Body(r)) == |r.data| + r.address % 0x100 + r.address / 0x100 + r.recordType + Total(r.data)
  {
    hide Hex, HexBytes, Total;
    var h: seq<Byte> := [|r.data|, r.address / 0x100, r.address % 0x100, r.recordType];
    HexBytesAppend(h, r.data);
    TotalAppend(h, r.data);
    HexWord(r.address);
    HeadBytes(|r.data|, r.address / 0x100, r.address % 0x100, r.recordType);
  }

  lemma FourBytes(a: Byte, b: Byte, c: Byte, d: Byte) returns (s1: seq<Byte>, s2: seq<Byte>, s3: seq<Byte>)
    ensures s1 == [] + [a] && s2 == s1 + [b] && s3 == s2 + [c] && [a, b, c, d] == s3 + [d]
  {
    s1, s2, s3 := [a], [a, b], [a, b, c];
  }

  lemma HeadBytes(a: Byte, b: Byte, c: Byte, d: Byte)
    ensures HexBytes([a, b, c, d]) == Hex(a, 2) + (Hex(b, 2) + Hex(c, 2)) + Hex(d, 2)
    ensures Total([a, b, c, d]) == a + b + c + d
  {
    hide *;
    var s1, s2, s3 := FourBytes(a, b, c, d);
    NoData();
    LastByte([], a);
    LastByte(s1, b);
    LastByte(s2, c);
    LastByte(s3, d);
    Regrouped(Hex(a, 2), Hex(b, 2), Hex(c, 2), Hex(d, 2));
  }

  lemma Regrouped(a: string, b: string, c: string, d: string)
    ensures "" + a + b + c + d == a + (b + c) + d
  {
  }

  /** ihex_line, which asserts that there are fewer than 128 bytes of data. */
  method IhexLine(address: nat, recordType: nat, data: seq<Byte>) returns (r: Result<string>)
    ensures |data| >= 128 <==> r == Error
    ensures |data| < 128 ==> r == Ok(Line(Record(recordType, address, data)))
    ensures var rec := Record(recordType, address, data);
            Fits(rec) ==> r == Ok(":" + HexBytes(Body(rec) + [Check(rec)]) + "\n")
  {
    hide *;
    var rec := Record(recordType, address, data);
    FitsShort(rec);
    if |data| >= 128 { return Error; }
    var line := ":" + Padded(|data|, 2) + Padded(address, 4) + Padded(recordType, 2);
    var check := |data|;
    check := check + address % 256;
    check := check + address / 256;
    check := check + recordType;
    ghost var head, sum := line, check;
    NoData();
    var i := 0;
    while i < |data|
      invariant 0 <= i <= |data| && line == head + HexBytes(data[..i]) && check == sum + Total(data[..i])
    {
      NextByte(data, i);
      check := check + data[i];
      line := line + Hex(data[i], 2);
      i := i + 1;
    }
    assert data[..i] == data;
    line := line + (Hex((256 - check) % 256, 2) + "\n");
    IsLine(rec);
    if Fits(rec) { LineBytes(rec); }
    r := Ok(line);
  }

  lemma FitsShort(r: Record)
    ensures Fits(r) ==> |r.data| < 128
  {
  }

  lemma IsLine(r: Record)
    requires r.address >= 0 && r.recordType >= 0
    ensures Line(r) ==
            ":" + Padded(|r.data|, 2) + Padded(r.address, 4) + Padded(r.recordType, 2) + HexBytes(r.data)
            + (Hex((256 - (|r.data| + r.address % 256 + r.address / 256 + r.recordType + Total(r.data))) % 256, 2) +
               "\n")
  {
    hide Hex, HexBytes, Total, Padded;
  }

  /** What fits is printed in the digits there are for it. */
  lemma LineFits(r: Record)
    requires Fits(r)
    ensures Line(r) ==
            ":" + Hex(|r.data|, 2) + Hex(r.address, 4) + Hex(r.recordType, 2) + HexBytes(r.data) +
              (Hex((0x100 - Sum(r)) % 0x100, 2) + "\n")
  {
    hide Hex, HexBytes, Sum;
    Widths();
  }

  /** The line of a record that fits: all its bytes in hexadecimal, the checksum last. */
  lemma LineBytes(r: Record)
    requires Fits(r)
    ensures Line(r) == ":" + HexBytes(Body(r) + [Check(r)]) + "\n"
  {
    hide Hex, HexBytes, Total, Body, Line;
    LineFits(r);
    Head(r);
    LastByte(Body(r), Check(r));
    var c := Hex(Check(r), 2);
    Join(":", Hex(|r.data|, 2), Hex(r.address, 4), Hex(r.recordType, 2), HexBytes(r.data), c);
  }

  lemma Join(colon: string, a: string, b: string, c: string, d: string, e: string)
    ensures colon + (a + b + c + d + e) + "\n" == colon + a + b + c + d + (e + "\n")
  {
  }

  lemma NoData()
    ensures HexBytes([]) == "" && Total([]) == 0
  {
  }

  lemma NextByte(data: seq<Byte>, i: nat)
    requires i < |data|
    ensures HexBytes(data[..i + 1]) == HexBytes(data[..i]) + Hex(data[i], 2) &&
            Total(data[..i + 1]) == Total(data[..i]) + data[i]
  {
    hide Hex;
    assert data[..i + 1][..i] == data[..i];
  }

  lemma LastByte(s: seq<Byte>, b: Byte)
    ensures HexBytes(s + [b]) == HexBytes(s) + Hex(b, 2) && Total(s + [b]) == Total(s) + b
  {
    hide Hex;
    assert (s + [b])[..|s|] == s;
  }

  /** The sixteen digits. */
  lemma DigitIs(n: nat)
    requires n < 16
    ensures Digit(n) as int == if n < 10 then '0' as int + n else 'A' as int + (n - 10)
  {
  }

  lemma TwoDigits(n: nat)
    requires n < 0x100
    ensures Hex(n, 2) == [Digit(n / 16), Digit(n % 16)]
  {
    hide Digit;
    assert Hex(n / 16, 1) == Hex(n / 16 / 16, 0) + [Digit(n / 16)];
  }

  lemma ThreeBytes(a: Byte, b: Byte, c: Byte)
    ensures HexBytes([a, b, c]) == Hex(a, 2) + Hex(b, 2) + Hex(c, 2) && Total([a, b, c]) == a + b + c
  {
    hide *;
    NoData();
    LastByte([], a);
    LastByte([a], b);
    LastByte([a, b], c);
    assert [] + [a] == [a] && [a] + [b] == [a, b] && [a, b] + [c] == [a, b, c];
    assert "" + Hex(a, 2) == Hex(a, 2);
  }

  lemma SampleBytes()
    ensures Hex(3, 2) == "03" && Hex(0, 2) == "00" && Hex(0x30, 2) == "30" && Hex(0x02, 2) == "02"
    ensures Hex(0x33, 2) == "33" && Hex(0x7A, 2) == "7A" && Hex(0x1E, 2) == "1E"
  {
    hide Hex;
    TwoDigits(3);
    TwoDigits(0);
    TwoDigits(0x30);
    TwoDigits(0x02);
    TwoDigits(0x33);
    TwoDigits(0x7A);
    TwoDigits(0x1E);
  }

  /** A line as it is printed: three bytes of data for the address 0x30. */
  lemma Sample()
    ensures Line(Record(0, 0x30, [0x02, 0x33, 0x7A])) == ":0300300002337A1E\n"
  {
    hide Hex, HexBytes, Total, Padded, Line, Digit;
    var r := Record(0, 0x30, [0x02, 0x33, 0x7A]);
    LineFits(r);
    HexWord(0x30);
    ThreeBytes(0x02, 0x33, 0x7A);
    SampleBytes();
    assert (0x100 - Sum(r)) % 0x100 == 0x1E;
  }

  // ---- reading it back

  /** Python's slice, which stops at the end of the string. */
  function Slice(s: string, lo: nat, hi: nat): string
    requires lo <= hi
  {
    if lo >= |s| then "" else s[lo..if hi <= |s| then hi else |s|]
  }

  /** The data bytes from the i-th on: "%c" takes one byte each. */
  function Data(line: string, i: nat, n: nat): Result<seq<Byte>>
    requires i <= n
    decreases n - i
  {
    if i == n then Ok([])
    else
      match (IntOf(Slice(line, 8 + 2 * i, 10 + 2 * i)), Data(line, i + 1, n))
      case (Ok(b), Ok(rest)) => if 0 <= b < 0x100 then Ok([b] + rest) else Error
      case _ => Error
  }

  /** How often a loop over range(n) goes round. */
  function Times(n: int): nat { if n < 0 then 0 else n }

  /** What ihex_parse returns; an error stands for the assertion or the exception. */
  function Parsed(line: string): Result<Record> {
    if line == "" || line[0] != ':' then Error
    else
      var l := line[1..];
      match (IntOf(Slice(l, 0, 2)), IntOf(Slice(l, 2, 6)), IntOf(Slice(l, 6, 8)))
      case (Ok(n), Ok(address), Ok(recordType)) =>
        (match Data(l, 0, Times(n)) case Ok(data) => Ok(Record(recordType, address, data)) case Error => Error)
      case _ => Error
  }

  /** ihex_parse */
  method IhexParse(line: string) returns (r: Result<Record>)
    ensures r == Parsed(line)
  {
    hide IntOf, Slice;
    if line == "" || line[0] != ':' { return Error; }
    var l := line[1..];
    var n, address, recordType := IntOf(Slice(l, 0, 2)), IntOf(Slice(l, 2, 6)), IntOf(Slice(l, 6, 8));
    if n.Error? || address.Error? || recordType.Error? { return Error; }
    var data: seq<Byte> := [];
    var times := Times(n.value);
    ghost var all := Data(l, 0, times);
    if all.Ok? { assert data + all.value == all.value; }
    var i := 0;
    while i < times
      invariant 0 <= i <= times
      invariant Data(l, 0, times) == match Data(l, i, times) case Ok(rest) => Ok(data + rest) case Error => Error
    {
      var b := IntOf(Slice(l, 8 + 2 * i, 10 + 2 * i));
      if b.Error? || !(0 <= b.value < 0x100) { return Error; }
      ghost var rest := Data(l, i + 1, times);
      if rest.Ok? { assert data + ([b.value] + rest.value) == data + [b.value] + rest.value; }
      data := data + [b.value];
      i := i + 1;
    }
    assert data + [] == data;
    r := Ok(Record(recordType.value, address.value, data));
  }

  lemma {:induction false} DataBack(l: string, data: seq<Byte>, i: nat)
    requires i <= |data| && |l| >= 8 + 2 * |data| && l[8..8 + 2 * |data|] == HexBytes(data)
    ensures Data(l, i, |data|) == Ok(data[i..])
    decreases |data| - i
  {
    hide Hex, HexBytes, IntOf;
    if i < |data| {
      DataBack(l, data, i + 1);
      HexAt(data, i);
      Widths();
      IntOfHex(data[i], 2);
      SubSlice(l, 8, 8 + 2 * |data|, 2 * i, 2 * i + 2);
      assert Slice(l, 8 + 2 * i, 10 + 2 * i) == Hex(data[i], 2);
      assert data[i..] == [data[i]] + data[i + 1..];
    } else {
      assert data[i..] == [];
    }
  }

  lemma SubSlice(l: string, lo: nat, hi: nat, x: nat, y: nat)
    requires lo <= hi <= |l| && x <= y <= hi - lo
    ensures l[lo..hi][x..y] == l[lo + x..lo + y]
  {
    var s, t := l[lo..hi][x..y], l[lo + x..lo + y];
    assert |s| == |t| && forall i | 0 <= i < |s| :: s[i] == t[i];
  }

  lemma Pieces(a: string, b: string, c: string, d: string, e: string)
    requires |a| == 2 && |b| == 4 && |c| == 2
    ensures var l := a + b + c + d + e; l[..2] == a && l[2..6] == b && l[6..8] == c && l[8..8 + |d|] == d
  {
  }

  lemma HexAt(data: seq<Byte>, i: nat)
    requires i < |data|
    ensures HexBytes(data)[2 * i..2 * i + 2] == Hex(data[i], 2)
  {
    hide Hex, HexBytes;
    var a, b := data[..i + 1], data[i + 1..];
    assert data == a + b;
    HexBytesAppend(a, b);
    NextByte(data, i);
  }

  lemma BackIfFits(r: Record)
    requires Fits(r)
    ensures Parsed(Line(r)) == Ok(r)
  {
    hide Hex, HexBytes, IntOf, Body, Check, Data, Line, Total, Sum;
    LineFits(r);
    Widths();
    IntOfHex(|r.data|, 2);
    IntOfHex(r.address, 4);
    IntOfHex(r.recordType, 2);
    var end := Hex((0x100 - Sum(r)) % 0x100, 2) + "\n";
    Pieces(Hex(|r.data|, 2), Hex(r.address, 4), Hex(r.recordType, 2), HexBytes(r.data), end);
    var l := Hex(|r.data|, 2) + Hex(r.address, 4) + Hex(r.recordType, 2) + HexBytes(r.data) + end;
    assert Line(r) == ":" + l && (":" + l)[1..] == l;
    DataBack(l, r.data, 0);
    assert r.data[0..] == r.data;
  }

  /** Whatever is read has an address of four digits and a type of two. */
  lemma ReadFits(line: string)
    ensures Parsed(line).Ok? ==> Parsed(line).value.address < 0x1_0000 && Parsed(line).value.recordType < 0x100
  {
    hide IntOf, Data;
    if Parsed(line).Ok? {
      var l := line[1..];
      Widths();
      IntBelow(Slice(l, 2, 6), 4);
      IntBelow(Slice(l, 6, 8), 2);
    }
  }

  /** ihex_parse undoes ihex_line exactly if the address has at most 16 bits and the type at
      most 8, which ihex_line does not ask for. */
  lemma RoundTrip(r: Record)
    requires r.address >= 0 && r.recordType >= 0 && |r.data| < 128
    ensures Parsed(Line(r)) == Ok(r) <==> r.address < 0x1_0000 && r.recordType < 0x100
  {
    hide Parsed, Line;
    if Fits(r) { BackIfFits(r); }
    ReadFits(Line(r));
  }
}
