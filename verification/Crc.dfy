/** The image CRC of rdp/charger_case_comms_stm32/build.py. Words are written as their bits,
    most significant bit first, so `x << 1` drops the first bit and `x & 1` is the last one. */
module Crc {
  import Hex

  type Bits = seq<bool>

  function Zeros(n: nat): (z: Bits)
    ensures |z| == n
  {
    seq(n, _ => false)
  }

  function Ones(n: nat): (z: Bits)
    ensures |z| == n
  {
    seq(n, _ => true)
  }

  function Xor(x: Bits, y: Bits): (z: Bits)
    requires |x| == |y|
    ensures |z| == |x|
  {
    seq(|x|, i requires 0 <= i < |x| => x[i] != y[i])
  }

  function Reverse(x: Bits): (z: Bits)
    ensures |z| == |x|
  {
    seq(|x|, i requires 0 <= i < |x| => x[|x| - 1 - i])
  }

  function ShiftLeft(x: Bits): (z: Bits)
    requires |x| > 0
    ensures |z| == |x|
  {
    x[1..] + [false]
  }

  function ShiftRight(x: Bits): (z: Bits)
    requires |x| > 0
    ensures |z| == |x|
  {
    [false] + x[..|x| - 1]
  }

  function LowBit(x: Bits): bool
    requires |x| > 0
  {
    x[|x| - 1]
  }

  /** The value the bits stand for. */
  function ToNat(x: Bits): nat {
    if x == [] then 0 else 2 * ToNat(x[..|x| - 1]) + (if LowBit(x) then 1 else 0)
  }

  // ---------------------------------------------------------------- bit_swap and byte_swap_32

  /** What `data` and `result` hold after n rounds of bit_swap. */
  function Unswapped(data: Bits, n: nat): (d: Bits)
    requires n <= |data|
    ensures |d| == |data|
  {
    Zeros(n) + data[..|data| - n]
  }

  function Swapped(data: Bits, n: nat): (r: Bits)
    requires n <= |data|
    ensures |r| == |data|
  {
    Zeros(|data| - n) + Reverse(data[|data| - n..])
  }

  lemma SwapRound(data: Bits, n: nat)
    requires n < |data|
    ensures Unswapped(data, n + 1) == ShiftRight(Unswapped(data, n))
    ensures Swapped(data, n + 1) == ShiftLeft(Swapped(data, n))[|data| - 1 := LowBit(Unswapped(data, n))]
  {
    hide Unswapped, Swapped;
    var m := |data|;
    UnswappedAt(data, n, m - 1);
    var d, r := ShiftRight(Unswapped(data, n)), ShiftLeft(Swapped(data, n))[m - 1 := LowBit(Unswapped(data, n))];
    forall i | 0 <= i < m ensures d[i] == Unswapped(data, n + 1)[i] {
      UnswappedAt(data, n, if i > 0 then i - 1 else 0);
      UnswappedAt(data, n + 1, i);
    }
    forall i | 0 <= i < m ensures r[i] == Swapped(data, n + 1)[i] {
      SwappedAt(data, n, if i < m - 1 then i + 1 else 0);
      SwappedAt(data, n + 1, i);
    }
  }

  lemma UnswappedAt(data: Bits, n: nat, i: nat)
    requires n <= |data| && i < |data|
    ensures Unswapped(data, n)[i] == if i < n then false else data[i - n]
  {
  }

  lemma SwappedAt(data: Bits, n: nat, i: nat)
    requires n <= |data| && i < |data|
    ensures Swapped(data, n)[i] == if i < |data| - n then false else data[2 * |data| - n - 1 - i]
  {
    if i >= |data| - n {
      assert data[|data| - n..][|data| - 1 - i] == data[2 * |data| - n - 1 - i];
    }
  }

  /** bit_swap: 32 rounds that move the lowest bit of `data` to the bottom of `result`. */
  method BitSwap(data: Bits) returns (result: Bits)
    requires |data| == 32
    ensures result == Reverse(data)
  {
    var d := data;
    result := Zeros(32);
    for n := 0 to 32
      invariant d == Unswapped(data, n) && result == Swapped(data, n)
    {
      SwapRound(data, n);
      result := ShiftLeft(result);
      if LowBit(d) {
        result := result[31 := true];
      }
      d := ShiftRight(d);
    }
  }

  /** byte_swap_32: the four bytes in the opposite order. */
  function ByteSwap32(x: Bits): (z: Bits)
    requires |x| == 32
    ensures |z| == 32
  {
    x[24..32] + x[16..24] + x[8..16] + x[0..8]
  }

  // ---------------------------------------------------------------- reference: MSB-first CRC

  const POLY: Bits := [false, false, false, false, false, true, false, false,
                       true, true, false, false, false, false, false, true,
                       false, false, false, true, true, true, false, true,
                       true, false, true, true, false, true, true, true]

  /** One bit of the CRC with polynomial `p`, most significant bit first. */
  function MsbStep(p: Bits, c: Bits, bit: bool): (z: Bits)
    requires |p| == |c| == 32
    ensures |z| == 32
  {
    if c[0] != bit then Xor(ShiftLeft(c), p) else ShiftLeft(c)
  }

  function MsbCrc(p: Bits, c: Bits, message: Bits): (z: Bits)
    requires |p| == |c| == 32
    ensures |z| == 32
    decreases |message|
  {
    if message == [] then c else MsbCrc(p, MsbStep(p, c, message[0]), message[1..])
  }

  lemma {:induction false} MsbCrcConcat(p: Bits, c: Bits, x: Bits, y: Bits)
    requires |p| == |c| == 32
    ensures MsbCrc(p, c, x + y) == MsbCrc(p, MsbCrc(p, c, x), y)
    decreases |x|
  {
    if x == [] {
      assert x + y == y;
    } else {
      assert (x + y)[1..] == x[1..] + y;
      MsbCrcConcat(p, MsbStep(p, c, x[0]), x[1..], y);
    }
  }

  // ---------------------------------------------------------------- zlib.crc32, section 8 of RFC 1952

  /** 0xEDB88320. */
  const POLY_REFLECTED: Bits := [true, true, true, false, true, true, false, true,
                                 true, false, true, true, true, false, false, false,
                                 true, false, false, false, false, false, true, true,
                                 false, false, true, false, false, false, false, false]

  function LsbShift(q: Bits, r: Bits): (z: Bits)
    requires |q| == |r| == 32
    ensures |z| == 32
  {
    if LowBit(r) then Xor(ShiftRight(r), q) else ShiftRight(r)
  }

  function LsbShifts(q: Bits, r: Bits, n: nat): (z: Bits)
    requires |q| == |r| == 32
    ensures |z| == 32
    decreases n
  {
    if n == 0 then r else LsbShifts(q, LsbShift(q, r), n - 1)
  }

  /** The byte is added into the low end of the register, which then makes eight shifts. */
  function ZlibByte(q: Bits, r: Bits, byte: Bits): (z: Bits)
    requires |q| == |r| == 32 && |byte| == 8
    ensures |z| == 32
  {
    LsbShifts(q, Xor(r, Zeros(24) + byte), |byte|)
  }

  function Not(x: Bits): (z: Bits)
    ensures |z| == |x|
  {
    seq(|x|, i requires 0 <= i < |x| => !x[i])
  }

  /** zlib.crc32 of the four bytes of a word in big-endian order, continuing from `crc`. */
  function ZlibWord(q: Bits, word: Bits, crc: Bits): (z: Bits)
    requires |q| == |word| == |crc| == 32
    ensures |z| == 32
  {
    var r1 := ZlibByte(q, Not(crc), word[0..8]);
    var r2 := ZlibByte(q, r1, word[8..16]);
    var r3 := ZlibByte(q, r2, word[16..24]);
    Not(ZlibByte(q, r3, word[24..32]))
  }

  // ---------------------------------------------------------------- the simulation

  /** Reflecting the register turns one MSB-first step into one LSB-first step. */
  lemma StepSimulation(p: Bits, c: Bits, bit: bool)
    requires |p| == |c| == 32
    ensures Reverse(MsbStep(p, c, bit)) == LsbShift(Reverse(p), Reverse(c)[31 := c[0] != bit])
  {
    var t := Reverse(c)[31 := c[0] != bit];
    assert ShiftRight(t) == Reverse(ShiftLeft(c));
    assert Reverse(Xor(ShiftLeft(c), p)) == Xor(Reverse(ShiftLeft(c)), Reverse(p));
  }

  /** Only the last bit of what is added decides whether the polynomial comes in. */
  lemma LsbShiftLinear(q: Bits, r: Bits, y: Bits)
    requires |q| == |r| == |y| == 32
    ensures LsbShift(q, Xor(r, y)) == Xor(LsbShift(q, r[31 := r[31] != y[31]]), ShiftRight(y))
  {
    var t := r[31 := r[31] != y[31]];
    assert LowBit(Xor(r, y)) == LowBit(t);
    assert Xor(ShiftRight(t), ShiftRight(y)) == ShiftRight(Xor(r, y));
    if LowBit(t) {
      assert Xor(Xor(ShiftRight(t), q), ShiftRight(y)) == Xor(ShiftRight(Xor(r, y)), q);
    }
  }

  /** One round of the lemma below: feed the lowest bit of `y`, keep the others for later. */
  lemma FeedLowestBit(p: Bits, c: Bits, y: Bits)
    requires |p| == |c| == 32 && 0 < |y| <= 32
    ensures LsbShift(Reverse(p), Xor(Reverse(c), Zeros(32 - |y|) + y))
            == Xor(Reverse(MsbStep(p, c, LowBit(y))), Zeros(33 - |y|) + y[..|y| - 1])
  {
    var r, wide := Reverse(c), Zeros(32 - |y|) + y;
    calc {
      LsbShift(Reverse(p), Xor(r, wide));
      { LsbShiftLinear(Reverse(p), r, wide); }
      Xor(LsbShift(Reverse(p), r[31 := r[31] != wide[31]]), ShiftRight(wide));
      { assert wide[31] == LowBit(y) && r[31] == c[0]; }
      Xor(LsbShift(Reverse(p), r[31 := c[0] != LowBit(y)]), ShiftRight(wide));
      { StepSimulation(p, c, LowBit(y)); }
      Xor(Reverse(MsbStep(p, c, LowBit(y))), ShiftRight(wide));
      { assert ShiftRight(wide) == Zeros(33 - |y|) + y[..|y| - 1]; }
      Xor(Reverse(MsbStep(p, c, LowBit(y))), Zeros(33 - |y|) + y[..|y| - 1]);
    }
  }

  /** Adding a whole byte and then shifting is the same as feeding its bits one by one, lowest first. */
  lemma {:induction false} ShiftsFeedBits(p: Bits, c: Bits, y: Bits)
    requires |p| == |c| == 32 && |y| <= 32
    ensures Reverse(MsbCrc(p, c, Reverse(y))) == LsbShifts(Reverse(p), Xor(Reverse(c), Zeros(32 - |y|) + y), |y|)
    decreases |y|
  {
    hide LsbShift, MsbStep;
    if y == [] {
      assert Xor(Reverse(c), Zeros(32) + y) == Reverse(c);
    } else {
      var rest := y[..|y| - 1];
      assert Reverse(y)[0] == LowBit(y) && Reverse(y)[1..] == Reverse(rest);
      FeedLowestBit(p, c, y);
      ShiftsFeedBits(p, MsbStep(p, c, LowBit(y)), rest);
    }
  }

  lemma PolynomialsMatch()
    ensures Reverse(POLY) == POLY_REFLECTED
  {
  }

  /** One byte of zlib.crc32, seen through the reflection. */
  lemma ByteSimulation(p: Bits, c: Bits, byte: Bits)
    requires |p| == |c| == 32 && |byte| == 8
    ensures ZlibByte(Reverse(p), Reverse(c), byte) == Reverse(MsbCrc(p, c, Reverse(byte)))
  {
    ShiftsFeedBits(p, c, byte);
  }

  lemma NotReverse(x: Bits)
    ensures Not(Not(x)) == x && Reverse(Reverse(x)) == x && Not(Reverse(x)) == Reverse(Not(x))
  {
  }

  /** The bytes of a bit-swapped word, in big-endian order, are its byte-swapped bytes mirrored one by one. */
  lemma SwappedBytes(word: Bits)
    requires |word| == 32
    ensures Reverse(Reverse(word)[0..8]) == word[24..32]
    ensures Reverse(Reverse(word)[8..16]) == word[16..24]
    ensures Reverse(Reverse(word)[16..24]) == word[8..16]
    ensures Reverse(Reverse(word)[24..32]) == word[0..8]
  {
  }

  /** zlib.crc32 over a bit-swapped word is the MSB-first CRC over the byte-swapped word, mirrored. */
  lemma WordSimulation(p: Bits, c: Bits, word: Bits)
    requires |p| == |c| == |word| == 32
    ensures ZlibWord(Reverse(p), Reverse(word), Not(Reverse(c))) == Not(Reverse(MsbCrc(p, c, ByteSwap32(word))))
  {
    var w := Reverse(word);
    SwappedBytes(word);
    NotReverse(Reverse(c));
    var c1 := MsbCrc(p, c, word[24..32]);
    var c2 := MsbCrc(p, c1, word[16..24]);
    var c3 := MsbCrc(p, c2, word[8..16]);
    ByteSimulation(p, c, w[0..8]);
    ByteSimulation(p, c1, w[8..16]);
    ByteSimulation(p, c2, w[16..24]);
    ByteSimulation(p, c3, w[24..32]);
    MsbCrcConcat(p, c, word[24..32], word[16..24]);
    MsbCrcConcat(p, c, word[24..32] + word[16..24], word[8..16]);
    MsbCrcConcat(p, c, word[24..32] + word[16..24] + word[8..16], word[0..8]);
  }

  // ---------------------------------------------------------------- words as text

  function NibbleBits(c: char): (b: Bits)
    requires Hex.IsDigit(c)
    ensures |b| == 4
  {
    var v := Hex.DigitValue(c);
    [v / 8 % 2 == 1, v / 4 % 2 == 1, v / 2 % 2 == 1, v % 2 == 1]
  }

  function TextBits(s: string): (b: Bits)
    requires Hex.AllDigits(s)
    ensures |b| == 4 * |s|
  {
    if s == "" then [] else TextBits(s[..|s| - 1]) + NibbleBits(s[|s| - 1])
  }

  function Weight(b: bool, w: nat): nat {
    if b then w else 0
  }

  lemma NibbleValue(c: char)
    requires Hex.IsDigit(c)
    ensures var n := NibbleBits(c);
            Weight(n[0], 8) + Weight(n[1], 4) + Weight(n[2], 2) + Weight(n[3], 1) == Hex.DigitValue(c)
  {
    var v := Hex.DigitValue(c);
    assert v == 2 * (v / 2) + v % 2 && v / 2 == 2 * (v / 4) + v / 2 % 2 && v / 4 == 2 * (v / 8) + v / 4 % 2;
  }

  lemma ToNatAppendFour(x: Bits, n: Bits)
    requires |n| == 4
    ensures ToNat(x + n) == 16 * ToNat(x) + Weight(n[0], 8) + Weight(n[1], 4) + Weight(n[2], 2) + Weight(n[3], 1)
  {
    var x1 := x + [n[0]];
    var x2 := x1 + [n[1]];
    var x3 := x2 + [n[2]];
    assert x + n == x3 + [n[3]];
    ToNatAppend(x, n[0]);
    ToNatAppend(x1, n[1]);
    ToNatAppend(x2, n[2]);
    ToNatAppend(x3, n[3]);
  }

  /** The bits are those of `int(s, 16)`. */
  lemma {:induction false} TextBitsAreTheValue(s: string)
    requires Hex.AllDigits(s)
    ensures ToNat(TextBits(s)) == Hex.Value(s)
  {
    if s != "" {
      TextBitsAreTheValue(s[..|s| - 1]);
      ToNatAppendFour(TextBits(s[..|s| - 1]), NibbleBits(s[|s| - 1]));
      NibbleValue(s[|s| - 1]);
    }
  }

  lemma ToNatAppend(x: Bits, b: bool)
    ensures ToNat(x + [b]) == 2 * ToNat(x) + if b then 1 else 0
  {
    assert (x + [b])[..|x + [b]| - 1] == x;
  }

  lemma ToNatAppendByte(x: Bits, y: Bits)
    requires |y| == 8
    ensures ToNat(x + y) == 256 * ToNat(x) + ToNat(y)
  {
    var hi, lo := y[..4], y[4..];
    assert x + y == x + hi + lo && y == [] + hi + lo;
    ToNatAppendFour(x, hi);
    ToNatAppendFour(x + hi, lo);
    assert ToNat([]) == 0;
    ToNatAppendFour([], hi);
    ToNatAppendFour([] + hi, lo);
  }

  // ---------------------------------------------------------------- numbers

  lemma NextNibble(x: Bits, k: nat, before: nat, v: nat)
    requires 4 * k + 4 <= |x| && ToNat(x[..4 * k]) == before
    requires v == Weight(x[4 * k], 8) + Weight(x[4 * k + 1], 4) + Weight(x[4 * k + 2], 2) + Weight(x[4 * k + 3], 1)
    ensures ToNat(x[..4 * k + 4]) == 16 * before + v
  {
    hide ToNat;
    assert x[..4 * k + 4] == x[..4 * k] + x[4 * k..4 * k + 4];
    ToNatAppendFour(x[..4 * k], x[4 * k..4 * k + 4]);
  }

  lemma NothingIsZero()
    ensures ToNat([]) == 0
  {
  }

  lemma HighHalfIs()
    ensures ToNat(POLY[..16]) == 0x04C1
  {
    hide ToNat;
    NothingIsZero();
    assert POLY[..0] == [];
    NextNibble(POLY, 0, 0, 0);
    NextNibble(POLY, 1, 0, 4);
    NextNibble(POLY, 2, 4, 0xC);
    NextNibble(POLY, 3, 0x4C, 1);
  }

  lemma PolynomialIs()
    ensures ToNat(POLY) == 0x04C1_1DB7
  {
    hide ToNat;
    HighHalfIs();
    assert POLY[..32] == POLY;
    NextNibble(POLY, 4, 0x4C1, 1);
    NextNibble(POLY, 5, 0x4C11, 0xD);
    NextNibble(POLY, 6, 0x4_C11D, 0xB);
    NextNibble(POLY, 7, 0x4C_11DB, 7);
  }

  lemma {:induction false} ZerosKeepZero(p: Bits, n: nat)
    requires |p| == 32
    ensures MsbCrc(p, Zeros(32), Zeros(n)) == Zeros(32)
  {
    if n > 0 {
      assert ShiftLeft(Zeros(32)) == Zeros(32) && Zeros(n)[1..] == Zeros(n - 1);
      ZerosKeepZero(p, n - 1);
    }
  }

  lemma {:induction false} OnesCancel(p: Bits, n: nat)
    requires |p| == 32 && n <= 32
    ensures MsbCrc(p, Ones(n) + Zeros(32 - n), Ones(n)) == Zeros(32)
  {
    if n > 0 {
      assert ShiftLeft(Ones(n) + Zeros(32 - n)) == Ones(n - 1) + Zeros(33 - n) && Ones(n)[1..] == Ones(n - 1);
      OnesCancel(p, n - 1);
    } else {
      assert Ones(0) + Zeros(32) == Zeros(32);
    }
  }

  lemma OneStep(p: Bits)
    requires |p| == 32
    ensures MsbCrc(p, Zeros(32), [true]) == p
  {
    var c := MsbStep(p, Zeros(32), true);
    assert c == p;
    assert [true][1..] == [] && MsbCrc(p, c, []) == c;
  }

  /** After the words 0xFFFFFFFF and 1, the CRC is the polynomial. */
  lemma CrcOfOne(p: Bits)
    requires |p| == 32
    ensures MsbCrc(p, Ones(32), Ones(32) + (Zeros(31) + [true])) == p
  {
    assert Ones(32) + Zeros(0) == Ones(32);
    hide MsbCrc, MsbStep;
    OnesCancel(p, 32);
    ZerosKeepZero(p, 31);
    OneStep(p);
    MsbCrcConcat(p, Ones(32), Ones(32), Zeros(31) + [true]);
    MsbCrcConcat(p, Zeros(32), Zeros(31), [true]);
  }
}
