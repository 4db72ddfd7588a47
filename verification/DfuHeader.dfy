/** s0 and build_dfu of rdp/charger_case_comms_stm32/build.py: the header record with the CRC of both images, and
    the file that is made of it. */
module DfuHeader {
  import opened Results
  import opened Sequences
  import opened SRecord
  import opened Resize
  import opened ResizeMeaning
  import opened ResizeCrc
  import opened ResizeFiles
  import opened ImageCrc
  import opened Crc
  import opened DfuFile
  import DfuSender
  import Hex

  type Byte = b: nat | b < 256

  /** The UTF-8 form of one character. */
  type Utf8 = c: seq<Byte> | 1 <= |c| <= 4 witness [0]

  function LowerDigit(v: nat): (c: char)
    requires v < 16
    ensures Hex.IsDigit(c) && Hex.DigitValue(c) == v
  {
    if v < 10 then '0' + v as char else 'a' + (v - 10) as char
  }

  /** `bytes.hex()`. */
  function BytesHex(bytes: seq<Byte>): (s: string)
    ensures Hex.AllDigits(s) && |s| == 2 * |bytes|
  {
    if bytes == [] then "" else [LowerDigit(bytes[0] / 16), LowerDigit(bytes[0] % 16)] + BytesHex(bytes[1..])
  }

  lemma {:induction false} BytesHexConcat(a: seq<Byte>, b: seq<Byte>)
    ensures BytesHex(a + b) == BytesHex(a) + BytesHex(b)
  {
    if a == [] {
      assert a + b == b;
    } else {
      assert (a + b)[1..] == a[1..] + b;
      BytesHexConcat(a[1..], b);
    }
  }

  /** One character of the name, or a zero byte after its end. */
  function NameBytes(variant: seq<Utf8>, i: nat): Utf8 {
    if i < |variant| then variant[i] else [0]
  }

  /** The first n characters of the name. */
  function NameField(variant: seq<Utf8>, n: nat): (bytes: seq<Byte>)
    ensures n <= |bytes| <= 4 * n
  {
    if n == 0 then [] else NameField(variant, n - 1) + NameBytes(variant, n - 1)
  }

  function Name(variant: seq<Utf8>): (s: string)
    ensures Hex.AllDigits(s) && |s| == 2 * |NameField(variant, 7)|
  {
    BytesHex(NameField(variant, 7))
  }

  function CrcField(csum: Bits): (s: string)
    requires |csum| == 32
    ensures Hex.AllDigits(s)
  {
    Hex.Format(ToNat(ByteSwap32(csum)), 8)
  }

  /** Address, both CRCs, and the name closed by a zero byte. */
  function Data(csumA: Bits, csumB: Bits, variant: seq<Utf8>): (s: string)
    requires |csumA| == |csumB| == 32
    ensures Hex.AllDigits(s)
  {
    "0000" + CrcField(csumA) + CrcField(csumB) + Name(variant) + "00"
  }

  function Counted(csumA: Bits, csumB: Bits, variant: seq<Utf8>): (s: string)
    requires |csumA| == |csumB| == 32
    ensures Hex.AllDigits(s)
  {
    var data := Data(csumA, csumB, variant);
    Hex.Format(|data| / 2 + 1, 2) + data
  }

  function Header(csumA: Bits, csumB: Bits, variant: seq<Utf8>): string
    requires |csumA| == |csumB| == 32
  {
    var rec := Counted(csumA, csumB, variant);
    "S0" + rec + Hex.Format(255 - PairSum(rec) % 256, 2)
  }

  /** s0's first loop. */
  method AppendName(front: string, variant: seq<Utf8>) returns (r: string)
    ensures r == front + Name(variant)
  {
    hide NameBytes, Hex.AllDigits;
    r := front;
    for n := 0 to 7
      invariant r == front + BytesHex(NameField(variant, n))
    {
      var digits := if n < |variant| then BytesHex(variant[n]) else "00";
      NameDigits(variant, n);
      BytesHexConcat(NameField(variant, n), NameBytes(variant, n));
      Regroup(front, BytesHex(NameField(variant, n)), digits);
      r := r + digits;
    }
  }

  lemma NameDigits(variant: seq<Utf8>, i: nat)
    ensures BytesHex(NameBytes(variant, i)) == if i < |variant| then BytesHex(variant[i]) else "00"
  {
    assert BytesHex([0]) == "00";
  }

  /** s0. */
  method S0(csumA: Bits, csumB: Bits, variant: seq<Utf8>) returns (line: string)
    requires |csumA| == |csumB| == 32
    ensures line == Header(csumA, csumB, variant)
  {
    hide PairSum, Hex.Format, Hex.Value, Name, ToNat, ByteSwap32, Hex.AllDigits;
    var r := "0000";
    r := r + Hex.Format(ToNat(ByteSwap32(csumA)), 8);
    r := r + Hex.Format(ToNat(ByteSwap32(csumB)), 8);
    r := AppendName(r, variant);
    r := r + "00";
    r := Hex.Format(|r| / 2 + 1, 2) + r;
    assert r == Counted(csumA, csumB, variant);
    var csum := Checksum(r);
    r := r + Hex.Format(255 - csum.value % 256, 2);
    line := "S0" + r;
    Regroup("S0", Counted(csumA, csumB, variant), Hex.Format(255 - csum.value % 256, 2));
  }

  // ---------------------------------------------------------------- what the header says

  lemma {:induction false} ToNatBound(x: Bits)
    requires |x| % 4 == 0
    ensures ToNat(x) < Hex.Pow16(|x| / 4)
    decreases |x|
  {
    if x != [] {
      var front, nibble := x[..|x| - 4], x[|x| - 4..];
      assert x == front + nibble;
      ToNatBound(front);
      ToNatAppendFour(front, nibble);
    }
  }

  /** Bits of one length are told apart by their value. */
  lemma {:induction false} ToNatInjective(x: Bits, y: Bits)
    requires |x| == |y| && ToNat(x) == ToNat(y)
    ensures x == y
    decreases |x|
  {
    if x != [] {
      ToNatInjective(x[..|x| - 1], y[..|y| - 1]);
      assert x == x[..|x| - 1] + [LowBit(x)] && y == y[..|y| - 1] + [LowBit(y)];
    }
  }

  lemma ByteSwapTwice(x: Bits)
    requires |x| == 32
    ensures ByteSwap32(ByteSwap32(x)) == x
  {
    var z := ByteSwap32(x);
    assert z[0..8] == x[24..32] && z[8..16] == x[16..24] && z[16..24] == x[8..16] && z[24..32] == x[0..8];
    assert x == x[0..8] + x[8..16] + x[16..24] + x[24..32];
  }

  /** A CRC is read back from its eight digits. */
  lemma FieldReadsBack(csum: Bits)
    requires |csum| == 32
    ensures |CrcField(csum)| == 8 && ByteSwap32(TextBits(CrcField(csum))) == csum
  {
    var swapped := ByteSwap32(csum);
    hide ByteSwap32;
    ToNatBound(swapped);
    Hex.FormatWidth(ToNat(swapped), 8);
    TextBitsAreTheValue(CrcField(csum));
    ToNatInjective(TextBits(CrcField(csum)), swapped);
    ByteSwapTwice(csum);
  }

  lemma DataLength(csumA: Bits, csumB: Bits, variant: seq<Utf8>)
    requires |csumA| == |csumB| == 32
    ensures var d := |Data(csumA, csumB, variant)|; d % 2 == 0 && 22 + 2 * 7 <= d <= 22 + 2 * 28
    ensures |Counted(csumA, csumB, variant)| == 2 + |Data(csumA, csumB, variant)|
  {
    FieldReadsBack(csumA);
    FieldReadsBack(csumB);
    hide CrcField, Name, NameField, Hex.Format, Hex.AllDigits, TextBits, ByteSwap32, HexCells;
    var d := |Data(csumA, csumB, variant)|;
    assert d == 22 + 2 * |NameField(variant, 7)|;
    FieldWidths(0, d / 2 + 1);
  }

  /** The CRC of the image that the header record `line` gives, A or B, as a little-endian word. */
  function HeaderCrc(line: string, ofB: bool): Bits
    requires |line| >= 24 && Hex.AllDigits(line[2..])
  {
    var from := if ofB then 16 else 8;
    ByteSwap32(TextBits(line[from..from + 8]))
  }

  predicate IsMotorolaS0(line: string) {
    "S0" <= line && |line| >= 10 && KeepsMotorolaRules(line)
  }

  // ---------------------------------------------------------------- the bytes of the header

  predicate TwoDigitsAt(line: string, at: nat) {
    at + 2 <= |line| && Hex.IsDigit(line[at]) && Hex.IsDigit(line[at + 1])
  }

  /** The byte that two digits stand for. */
  function ByteAt(line: string, at: nat): nat
    requires TwoDigitsAt(line, at)
  {
    Hex.Value(line[at..at + 2])
  }

  /** Four bytes, the lowest one first. */
  function WordAt(line: string, at: nat): nat
    requires forall i | 0 <= i < 4 :: TwoDigitsAt(line, at + 2 * i)
  {
    assert TwoDigitsAt(line, at + 2 * 0) && TwoDigitsAt(line, at + 2 * 1) && TwoDigitsAt(line, at + 2 * 2) && TwoDigitsAt(line, at + 2 * 3);
    ByteAt(line, at) + 256 * ByteAt(line, at + 2) + 0x1_0000 * ByteAt(line, at + 4) + 0x100_0000 * ByteAt(line, at + 6)
  }

  /** Two digits of a longer text. */
  lemma TwoOf(s: string, k: nat)
    requires Hex.AllDigits(s) && k + 2 <= |s|
    ensures TwoDigitsAt(s, k) && ToNat(TextBits(s)[4 * k..4 * k + 8]) == ByteAt(s, k)
  {
    hide TextBits, NibbleBits, ToNat, Hex.Value;
    var pair := s[k..k + 2];
    TextBitsAt(s, k);
    TextBitsAt(s, k + 1);
    TextBitsAt(pair, 0);
    TextBitsAt(pair, 1);
    TextBitsAreTheValue(pair);
    TwoNibbles(TextBits(s), 4 * k);
    TwoNibbles(TextBits(pair), 0);
    assert TextBits(pair)[0..8] == TextBits(pair);
  }

  /** The eight digits of a CRC are its four bytes, the lowest one first. */
  lemma FieldBytes(csum: Bits)
    requires |csum| == 32
    ensures |CrcField(csum)| == 8 && (forall i | 0 <= i < 4 :: TwoDigitsAt(CrcField(csum), 2 * i))
    ensures WordAt(CrcField(csum), 0) == ToNat(csum)
  {
    var s := CrcField(csum);
    FieldReadsBack(csum);
    var b := TextBits(s);
    TwoOf(s, 0);
    TwoOf(s, 2);
    TwoOf(s, 4);
    TwoOf(s, 6);
    assert csum == [] + b[24..32] + b[16..24] + b[8..16] + b[0..8];
    hide TextBits, ByteSwap32, CrcField, Hex.AllDigits;
    ToNatAppendByte([], b[24..32]);
    ToNatAppendByte([] + b[24..32], b[16..24]);
    ToNatAppendByte([] + b[24..32] + b[16..24], b[8..16]);
    ToNatAppendByte([] + b[24..32] + b[16..24] + b[8..16], b[0..8]);
    assert ToNat([]) == 0;
  }

  lemma DigitsOfByte(v: Byte)
    ensures Hex.Value([LowerDigit(v / 16), LowerDigit(v % 16)]) == v
  {
    Hex.ValueOfTwo(LowerDigit(v / 16), LowerDigit(v % 16));
  }

  lemma TwoFurtherOn(front: string, rest: string, k: nat)
    requires |front| == 2 && k + 2 <= |rest|
    ensures var s := front + rest;
            s[k + 2..k + 4] == rest[k..k + 2] && s[k + 2] == rest[k] && s[k + 3] == rest[k + 1]
  {
  }

  /** The digits of some bytes say these bytes, in order. */
  lemma {:induction false} HexSaysBytes(bytes: seq<Byte>, i: nat)
    requires i < |bytes|
    ensures TwoDigitsAt(BytesHex(bytes), 2 * i) && ByteAt(BytesHex(bytes), 2 * i) == bytes[i]
  {
    hide Hex.Value, LowerDigit;
    DigitsOfByte(bytes[0]);
    if i == 0 {
      assert BytesHex(bytes)[0..2] == [LowerDigit(bytes[0] / 16), LowerDigit(bytes[0] % 16)];
    } else {
      var rest := BytesHex(bytes[1..]);
      HexSaysBytes(bytes[1..], i - 1);
      TwoFurtherOn([LowerDigit(bytes[0] / 16), LowerDigit(bytes[0] % 16)], rest, 2 * (i - 1));
    }
  }

  function Joined(parts: seq<Utf8>): seq<Byte> {
    if parts == [] then [] else Joined(Front(parts)) + Last(parts)
  }

  function Nulls(n: nat): seq<Byte> {
    seq(n, _ => 0)
  }

  /** The name is cut after seven characters, or filled up with zero bytes. */
  lemma {:induction false} NameIs(variant: seq<Utf8>, n: nat)
    ensures NameField(variant, n) == if n <= |variant| then Joined(variant[..n]) else Joined(variant) + Nulls(n - |variant|)
  {
    hide Joined, Nulls;
    NoCharacters(variant);
    if n > 0 {
      NameIs(variant, n - 1);
      if n <= |variant| {
        OneCharacter(variant, n);
      } else {
        assert n == |variant| + 1 ==> variant[..n - 1] == variant;
        OneNull(Joined(variant), n - |variant|);
      }
    }
  }

  lemma NoCharacters(variant: seq<Utf8>)
    ensures Joined(variant[..0]) == []
  {
  }

  lemma OneCharacter(variant: seq<Utf8>, n: nat)
    requires 0 < n <= |variant|
    ensures Joined(variant[..n]) == Joined(variant[..n - 1]) + variant[n - 1]
  {
    assert Front(variant[..n]) == variant[..n - 1];
  }

  lemma OneNull(name: seq<Byte>, n: nat)
    requires n > 0
    ensures (if n == 1 then name else name + Nulls(n - 1)) + [0] == name + Nulls(n)
  {
    assert Nulls(n) == Nulls(n - 1) + [0];
  }

  lemma HeaderLayout(c: string, a: string, b: string, name: string, k: string)
    requires |c| == |k| == 2 && |a| == |b| == 8
    ensures var data := "0000" + a + b + name + "00"; var line := "S0" + (c + data) + k;
            && |line| == 28 + |name| && "S0" <= line && line[2..4] == c && line[4..8] == "0000"
            && line[8..16] == a && line[16..24] == b && line[24..24 + |name|] == name && line[24 + |name|..26 + |name|] == "00"
            && line[2..|line| - 2] == c + data && line[|line| - 2..] == k && line[2..] == c + data + k
  {
  }

  /** Bytes found again in a longer line. */
  lemma BytesInLine(line: string, from: nat, field: string, k: nat)
    requires from + |field| <= |line| && line[from..from + |field|] == field && TwoDigitsAt(field, k)
    ensures TwoDigitsAt(line, from + k) && ByteAt(line, from + k) == ByteAt(field, k)
  {
    assert line[from + k..from + k + 2] == line[from..from + |field|][k..k + 2];
  }

  lemma WordInLine(line: string, from: nat, field: string)
    requires |field| == 8 && from + 8 <= |line| && line[from..from + 8] == field
    requires forall i | 0 <= i < 4 :: TwoDigitsAt(field, 2 * i)
    ensures (forall i | 0 <= i < 4 :: TwoDigitsAt(line, from + 2 * i)) && WordAt(line, from) == WordAt(field, 0)
  {
    hide TwoDigitsAt, ByteAt;
    assert TwoDigitsAt(field, 2 * 0) && TwoDigitsAt(field, 2 * 1) && TwoDigitsAt(field, 2 * 2) && TwoDigitsAt(field, 2 * 3);
    BytesInLine(line, from, field, 0);
    BytesInLine(line, from, field, 2);
    BytesInLine(line, from, field, 4);
    BytesInLine(line, from, field, 6);
  }

  /** The first seven characters of the name, or the name filled up with zero bytes. */
  function SevenCharacters(variant: seq<Utf8>): seq<Byte> {
    if |variant| >= 7 then Joined(variant[..7]) else Joined(variant) + Nulls(7 - |variant|)
  }

  /** Four bytes in the line, the lowest one first. */
  predicate SaysWord(line: string, at: nat, value: nat) {
    (forall i | 0 <= i < 4 :: TwoDigitsAt(line, at + 2 * i)) && WordAt(line, at) == value
  }

  predicate SaysBytes(line: string, at: nat, bytes: seq<Byte>) {
    forall i | 0 <= i < |bytes| :: TwoDigitsAt(line, at + 2 * i) && ByteAt(line, at + 2 * i) == bytes[i]
  }

  /** Read byte by byte: the address 0, both CRCs with their lowest bytes first, the name, one zero byte, and the
      checksum. */
  lemma HeaderBytes(csumA: Bits, csumB: Bits, variant: seq<Utf8>)
    requires |csumA| == |csumB| == 32
    ensures var line := Header(csumA, csumB, variant);
            var end := 24 + 2 * |SevenCharacters(variant)|;
            && |line| == end + 4 && line[4..8] == "0000" && line[end..end + 2] == "00"
            && SaysWord(line, 8, ToNat(csumA)) && SaysWord(line, 16, ToNat(csumB))
            && SaysBytes(line, 24, SevenCharacters(variant))
  {
    hide Header, CrcField, NameField, SaysWord, SaysBytes, Joined, PairSum, Hex.Format, Counted, Hex.AllDigits;
    var line, _ := HeaderParts(csumA, csumB, variant);
    NameIs(variant, 7);
    assert |variant| == 7 ==> variant[..7] == variant;
    CrcInLine(line, 8, csumA);
    CrcInLine(line, 16, csumB);
    NameInLine(line, variant, SevenCharacters(variant));
  }

  lemma CrcInLine(line: string, at: nat, csum: Bits)
    requires |csum| == 32 && at + 8 <= |line| && line[at..at + 8] == CrcField(csum)
    ensures SaysWord(line, at, ToNat(csum))
  {
    FieldBytes(csum);
    hide CrcField, TwoDigitsAt, WordAt;
    WordInLine(line, at, CrcField(csum));
  }

  lemma NameInLine(line: string, variant: seq<Utf8>, name: seq<Byte>)
    requires name == NameField(variant, 7) && 24 + 2 * |name| <= |line| && line[24..24 + 2 * |name|] == Name(variant)
    ensures SaysBytes(line, 24, name)
  {
    hide TwoDigitsAt, ByteAt, NameField;
    forall i | 0 <= i < |name| ensures TwoDigitsAt(line, 24 + 2 * i) && ByteAt(line, 24 + 2 * i) == name[i] {
      HexSaysBytes(name, i);
      BytesInLine(line, 24, Name(variant), 2 * i);
    }
  }

  /** The header is a well-formed S0 record and gives both CRCs, each in its place. */
  lemma HeaderSays(csumA: Bits, csumB: Bits, variant: seq<Utf8>)
    requires |csumA| == |csumB| == 32
    ensures var line := Header(csumA, csumB, variant);
            && IsMotorolaS0(line) && |line| >= 24 && RStrip(line) == line
            && HeaderCrc(line, false) == csumA && HeaderCrc(line, true) == csumB
  {
    hide Header, PairSum, Hex.Format, Hex.Value, TextBits, ByteSwap32, RStrip, Name, CrcField, Data;
    var line, k := HeaderParts(csumA, csumB, variant);
    FieldReadsBack(csumA);
    FieldReadsBack(csumB);
    ChecksumCloses(line);
    RStripStable(line);
  }

  /** The text of the header, field by field. */
  lemma HeaderParts(csumA: Bits, csumB: Bits, variant: seq<Utf8>) returns (line: string, k: nat)
    requires |csumA| == |csumB| == 32
    ensures line == Header(csumA, csumB, variant) && k == 255 - PairSum(Counted(csumA, csumB, variant)) % 256
    ensures |line| == 28 + |Name(variant)| && "S0" <= line && Hex.AllDigits(line[2..]) && |Hex.Format(k, 2)| == 2
    ensures line[2..4] == Hex.Format((|line| - 4) / 2, 2) && line[4..8] == "0000"
    ensures line[8..16] == CrcField(csumA) && line[16..24] == CrcField(csumB)
    ensures line[24..24 + |Name(variant)|] == Name(variant) && line[24 + |Name(variant)|..26 + |Name(variant)|] == "00"
    ensures line[2..|line| - 2] == Counted(csumA, csumB, variant) && line[|line| - 2..] == Hex.Format(k, 2)
  {
    hide PairSum, Hex.Format, Hex.Value, TextBits, ByteSwap32, Name, CrcField;
    var rec := Counted(csumA, csumB, variant);
    k := 255 - PairSum(rec) % 256;
    FieldReadsBack(csumA);
    FieldReadsBack(csumB);
    DataLength(csumA, csumB, variant);
    FieldWidths(0, |Data(csumA, csumB, variant)| / 2 + 1);
    FieldWidths(0, k);
    DigitsConcat(rec, Hex.Format(k, 2));
    HeaderLayout(Hex.Format(|Data(csumA, csumB, variant)| / 2 + 1, 2), CrcField(csumA), CrcField(csumB),
                 Name(variant), Hex.Format(k, 2));
    line := Header(csumA, csumB, variant);
  }

  lemma HeaderHoldsNoS7(line: string)
    requires IsMotorolaS0(line)
    ensures !DfuSender.Contains(line, "S7") && !IsS3(line)
  {
    DigitsHoldNoS(line[2..]);
    assert line[1..][1..] == line[2..] && "S7"[1..] == "7";
    assert !DfuSender.StartsWith(line[1..], "7");
  }

  // ---------------------------------------------------------------- build_dfu

  const S7_LINE := "S70500000000FA"

  lemma NoBytes(line: string)
    requires 2 <= |line| && Hex.AllDigits(line[2..])
    ensures ByteSum(line, 0) == 0
  {
  }

  /** The last line keeps the Motorola rules, too. */
  lemma LastLineIsMotorola()
    ensures KeepsMotorolaRules(S7_LINE)
  {
    assert S7_LINE[2..4] == ['0', '5'];
    hide ByteSum, Hex.Value;
    Hex.ValueOfTwo('0', '5');
    FirstBytes();
    NextByte(S7_LINE, 5, 0x05, 0xFA);
  }

  lemma FirstBytes()
    ensures Hex.AllDigits(S7_LINE[2..]) && ByteSum(S7_LINE, 5) == 0x05
  {
    assert Hex.AllDigits(S7_LINE[2..]);
    hide ByteSum, Hex.Value, Hex.AllDigits;
    NoBytes(S7_LINE);
    NextByte(S7_LINE, 0, 0, 0x05);
    NextByte(S7_LINE, 1, 0x05, 0);
    NextByte(S7_LINE, 2, 0x05, 0);
    NextByte(S7_LINE, 3, 0x05, 0);
    NextByte(S7_LINE, 4, 0x05, 0);
  }

  /** The S3 lines of an image, in order. */
  function S3Lines(lines: seq<string>): (s: seq<string>)
    ensures forall i | 0 <= i < |s| :: IsS3(s[i])
  {
    if lines == [] then [] else S3Lines(Front(lines)) + if IsS3(Last(lines)) then [Last(lines)] else []
  }

  function DfuLinesOf(a: seq<string>, b: seq<string>, variant: seq<Utf8>): seq<string> {
    var csumA, csumB := Stm32Crc(LinesMessage(a)), Stm32Crc(LinesMessage(b));
    [Header(csumA, csumB, variant)] + S3Lines(a) + S3Lines(b) + [S7_LINE]
  }

  method AppendS3Lines(fout: seq<string>, lines: seq<string>) returns (r: seq<string>)
    ensures r == fout + S3Lines(lines)
  {
    r := fout;
    assert lines[..0] == [];
    for i := 0 to |lines|
      invariant r == fout + S3Lines(lines[..i])
    {
      assert Front(lines[..i + 1]) == lines[..i];
      if IsS3(lines[i]) {
        Regroup(fout, S3Lines(lines[..i]), [lines[i]]);
        r := r + [lines[i]];
      }
    }
    assert lines[..|lines|] == lines;
  }

  /** build_dfu, from the lines of the two images to the lines of the file. */
  method BuildDfu(alla: seq<string>, allb: seq<string>, variant: seq<Utf8>) returns (r: Result<seq<string>>)
    requires forall i | 0 <= i < |alla| :: EvenPayload(alla[i])
    requires forall i | 0 <= i < |allb| :: EvenPayload(allb[i])
    ensures r.Ok? <==> HexPayloads(alla) && HexPayloads(allb)
    ensures r.Ok? ==> r.value == DfuLinesOf(alla, allb, variant)
  {
    var csumA := CalculateCrc32(alla);
    if csumA.ValueError? {
      return ValueError;
    }
    var csumB := CalculateCrc32(allb);
    if csumB.ValueError? {
      return ValueError;
    }
    var header := S0(csumA.value, csumB.value, variant);
    var fout := [header];
    fout := AppendS3Lines(fout, alla);
    fout := AppendS3Lines(fout, allb);
    r := Ok(fout + [S7_LINE]);
  }

  /** The CRC is taken over the lines that are copied, no more and no less. */
  lemma {:induction false} S3LinesMessage(lines: seq<string>)
    ensures LinesMessage(S3Lines(lines)) == LinesMessage(lines)
    decreases |lines|
  {
    if lines != [] {
      S3LinesMessage(Front(lines));
      var rest := S3Lines(Front(lines));
      if IsS3(Last(lines)) {
        assert Front(rest + [Last(lines)]) == rest;
      } else {
        assert rest + [] == rest;
      }
    }
  }

  lemma {:induction false} S3LinesEven(lines: seq<string>)
    requires forall i | 0 <= i < |lines| :: EvenPayload(lines[i])
    ensures forall i | 0 <= i < |S3Lines(lines)| :: EvenPayload(S3Lines(lines)[i])
    decreases |lines|
  {
    if lines != [] {
      S3LinesEven(Front(lines));
      assert EvenPayload(Last(lines));
    }
  }

  lemma S7LineIsTheTail()
    ensures !IsS3(S7_LINE) && RStrip(S7_LINE) == S7_LINE && DfuSender.Contains(S7_LINE, "S7")
  {
    assert S7_LINE[1..][0] == '7';
  }

  /** Whatever build_dfu writes is a file as the sender needs it. */
  lemma BuiltFileIsSound(alla: seq<string>, allb: seq<string>, variant: seq<Utf8>)
    requires forall i | 0 <= i < |alla| :: EvenPayload(alla[i])
    requires forall i | 0 <= i < |allb| :: EvenPayload(allb[i])
    requires S3Lines(alla) != [] && S3Lines(allb) != []
    ensures DfuLines(Header(Stm32Crc(LinesMessage(alla)), Stm32Crc(LinesMessage(allb)), variant),
                     S3Lines(alla), S3Lines(allb), S7_LINE)
  {
    hide Header, IsMotorolaS0, LinesMessage, EvenPayload, HeaderCrc;
    HeaderSays(Stm32Crc(LinesMessage(alla)), Stm32Crc(LinesMessage(allb)), variant);
    HeaderHoldsNoS7(Header(Stm32Crc(LinesMessage(alla)), Stm32Crc(LinesMessage(allb)), variant));
    S3LinesEven(alla);
    S3LinesEven(allb);
    S7LineIsTheTail();
  }

  /** What the receiver holds of the file, its header record included, agrees: the CRC that the stored header gives
      for the image that was not running is the CRC of the stored records. */
  ghost predicate HeaderAgrees(w: DfuSender.World) {
    var lines := w.vars.lines;
    && lines != [] && |lines[0]| >= 24 && Hex.AllDigits(lines[0][2..])
    && HeaderCrc(lines[0], w.runningA) == Stm32Crc(LinesMessage(lines))
    && forall k | 0 <= k < |lines| :: k in w.stored
  }

  /** What the two images, the file made of them and the size of the pieces have to be like. */
  ghost predicate Sendable(alla: seq<string>, allb: seq<string>, variant: seq<Utf8>, size: int) {
    && (forall i | 0 <= i < |alla| :: EvenPayload(alla[i])) && (forall i | 0 <= i < |allb| :: EvenPayload(allb[i]))
    && SoundImages(S3Lines(alla), S3Lines(allb)) && 0 < size <= 248 && size % 4 == 0
    && ReadableFile(DfuLinesOf(alla, allb, variant)) && ResizeText(DfuLinesOf(alla, allb, variant), size).Ok?
    && |SentImage(S3Lines(alla), size)| <= |SentImage(S3Lines(allb), size)| <= |SentImage(S3Lines(alla), size)| + 1
  }

  /** From the two images to the charger case: build_dfu, resize and the sender, end to end. */
  lemma {:induction false} BuiltAndDelivered(alla: seq<string>, allb: seq<string>, variant: seq<Utf8>, size: int,
                                             events: seq<DfuSender.Event>)
    requires Sendable(alla, allb, variant, size)
    requires var file := ResizeText(DfuLinesOf(alla, allb, variant), size).value;
             && DfuSender.PlausibleRun(file, events) && DfuSender.PromptRun(file, events)
             && DfuSender.RunWorld(DfuSender.StartWorld(file), events).completed
    ensures var file := ResizeText(DfuLinesOf(alla, allb, variant), size).value;
            HeaderAgrees(DfuSender.RunWorld(DfuSender.StartWorld(file), events))
  {
    hide Header, LinesMessage, HeaderCrc, ResizeText, SentImage, ReadableFile, SoundImages, DfuLines, S3Lines,
         DfuSender.RunWorld, EvenPayload, Stm32Crc;
    var csumA, csumB := Stm32Crc(LinesMessage(alla)), Stm32Crc(LinesMessage(allb));
    var header, a, b := Header(csumA, csumB, variant), S3Lines(alla), S3Lines(allb);
    NonemptyImages(a, b);
    BuiltFileIsSound(alla, allb, variant);
    DeliveredImageHasHeaderCrc(header, a, b, S7_LINE, size, events);
    DeliveredHeader(header, a, b, S7_LINE, size, events);
    HeaderSays(csumA, csumB, variant);
    S3LinesMessage(alla);
    S3LinesMessage(allb);
  }

  /** And every such file can be delivered, whichever image is running. */
  lemma CanBeDelivered(alla: seq<string>, allb: seq<string>, variant: seq<Utf8>, size: int, runningA: bool)
    returns (events: seq<DfuSender.Event>)
    requires Sendable(alla, allb, variant, size)
    ensures var file := ResizeText(DfuLinesOf(alla, allb, variant), size).value;
            && DfuSender.PlausibleRun(file, events) && DfuSender.PromptRun(file, events)
            && var w := DfuSender.RunWorld(DfuSender.StartWorld(file), events);
               w.completed && w.runningA == runningA && HeaderAgrees(w)
  {
    hide Header, LinesMessage, HeaderCrc, SoundImages, DfuLines, S3Lines, DfuSender.RunWorld, EvenPayload, Stm32Crc,
         ResizeText, HeaderAgrees, SentImage, ReadableFile, DfuSender.PlausibleRun, DfuSender.PromptRun;
    var header := Header(Stm32Crc(LinesMessage(alla)), Stm32Crc(LinesMessage(allb)), variant);
    var a, b := S3Lines(alla), S3Lines(allb);
    NonemptyImages(a, b);
    BuiltFileIsSound(alla, allb, variant);
    ResizedParts(header, a, b, S7_LINE, size);
    SentFileEndsWithS7(header, a, b, S7_LINE, size);
    events := DfuSender.CleanRunCompletes(ResizeText(DfuLinesOf(alla, allb, variant), size).value, runningA);
    BuiltAndDelivered(alla, allb, variant, size, events);
  }

  lemma NonemptyImages(a: seq<string>, b: seq<string>)
    requires SoundImages(a, b)
    ensures a != [] && b != []
  {
  }

  /** The first line that is delivered is the header. */
  lemma {:induction false} DeliveredHeader(header: string, a: seq<string>, b: seq<string>, tail: string, size: int,
                                           events: seq<DfuSender.Event>)
    requires DfuLines(header, a, b, tail) && SoundImages(a, b)
    requires ResizeText([header] + a + b + [tail], size).Ok?
    requires |SentImage(a, size)| <= |SentImage(b, size)| <= |SentImage(a, size)| + 1
    requires var file := ResizeText([header] + a + b + [tail], size).value;
             && DfuSender.PlausibleRun(file, events) && DfuSender.PromptRun(file, events)
             && DfuSender.RunWorld(DfuSender.StartWorld(file), events).completed
    ensures var w := DfuSender.RunWorld(DfuSender.StartWorld(ResizeText([header] + a + b + [tail], size).value), events);
            w.vars.lines != [] && w.vars.lines[0] == RStrip(header)
  {
    ResizedParts(header, a, b, tail, size);
    SentFileEndsWithS7(header, a, b, tail, size);
    DfuSender.CompletedRunsDeliver(RStrip(header), SentImage(a, size), SentImage(b, size), RStrip(tail), events);
  }

  // ---------------------------------------------------------------- a smallest file

  const WORD: seq<Cell> := [Cell('0', '1'), Cell('2', '3'), Cell('4', '5'), Cell('6', '7')]

  function WordRecord(address: nat): Record {
    S3(address, WORD)
  }

  function WordLine(address: nat): string {
    if Emit(address, WORD).Ok? then Emit(address, WORD).value else ""
  }

  /** An image of one word. */
  lemma WordImage(address: nat)
    requires address < 0x1_0000_0000
    ensures var line := WordLine(address);
            && IsS3(line) && EvenPayload(line) && S3Lines([line]) == [line]
            && ParseAll([line]) == Ok([WordRecord(address)]) && EmitRecord(WordRecord(address)) == Ok(line)
  {
    assert HexCells(WORD);
    hide Emit, Parse, RStrip, HexCells, EvenPayload, IsMotorolaS3, S3Lines, ParseAll;
    EmitReadsBack(address, WORD);
    EmittedPayloadIsEven(WordRecord(address));
    MotorolaIsS3(WordLine(address));
    OneLine(WordLine(address), WordRecord(address));
  }

  lemma MotorolaIsS3(line: string)
    requires IsMotorolaS3(line)
    ensures IsS3(line)
  {
  }

  lemma OneLine(line: string, rec: Record)
    requires IsS3(line) && Parse(RStrip(line)) == Ok(rec)
    ensures S3Lines([line]) == [line] && ParseAll([line]) == Ok([rec])
  {
    hide Parse, RStrip, IsS3;
    assert Front([line]) == [] && [line][..|[line]| - 1] == [];
    assert [] + [line] == [line] && [] + [rec] == [rec];
    assert S3Lines([]) == [] && ParseAll([]) == Ok([]);
  }

  lemma WordPieces(address: nat, size: int)
    requires size >= 4
    ensures Pieces([WordRecord(address)], size) == [WordRecord(address)]
  {
    var rec := WordRecord(address);
    BlocksOfOne(rec);
    assert Front([rec]) == [] && Last([rec]) == rec && Rechunk([], size) == [];
    assert Rechunk([rec], size) == Rechunk(Front([rec]), size) + RechunkOne(rec, size);
    assert Pad4(WORD) == WORD;
  }

  /** A file is sendable when its images are one word each, apart from each other, in pieces of any legal size. */
  lemma WordFileIsSendable(variant: seq<Utf8>, size: int)
    requires 4 <= size <= 248 && size % 4 == 0
    ensures Sendable([WordLine(0x800_0000)], [WordLine(0x801_0000)], variant, size)
  {
    var a, b := [WordLine(0x800_0000)], [WordLine(0x801_0000)];
    hide WordLine, WordRecord, Header, EvenPayload, S3Lines, LinesMessage, Stm32Crc, IsS3, RStrip, ParseAll,
         Pieces, EmitAll, ResizeText, ReadableFile, SoundImages, SentImage, EmitRecord;
    WordImage(0x800_0000);
    WordImage(0x801_0000);
    var header := Header(Stm32Crc(LinesMessage(a)), Stm32Crc(LinesMessage(b)), variant);
    HeaderIsALine(Stm32Crc(LinesMessage(a)), Stm32Crc(LinesMessage(b)), variant);
    WordFile(header, a, b, size);
    OneLineImages(a, b, variant, size);
  }

  lemma OneLineImages(a: seq<string>, b: seq<string>, variant: seq<Utf8>, size: int)
    requires |a| == |b| == 1 && EvenPayload(a[0]) && EvenPayload(b[0]) && S3Lines(a) == a && S3Lines(b) == b
    requires SoundImages(a, b) && |SentImage(a, size)| == |SentImage(b, size)| == 1 && 0 < size <= 248 && size % 4 == 0
    requires var header := Header(Stm32Crc(LinesMessage(a)), Stm32Crc(LinesMessage(b)), variant);
             ReadableFile([header] + a + b + [S7_LINE]) && ResizeText([header] + a + b + [S7_LINE], size).Ok?
    ensures Sendable(a, b, variant, size)
  {
    hide Header, EvenPayload, S3Lines, LinesMessage, Stm32Crc, ResizeText, ReadableFile, SoundImages, SentImage;
  }

  lemma HeaderIsALine(csumA: Bits, csumB: Bits, variant: seq<Utf8>)
    requires |csumA| == |csumB| == 32
    ensures !IsS3(Header(csumA, csumB, variant)) && RStrip(Header(csumA, csumB, variant)) == Header(csumA, csumB, variant)
  {
    hide Header, IsMotorolaS0, HeaderCrc, RStrip, IsS3;
    HeaderSays(csumA, csumB, variant);
    HeaderHoldsNoS7(Header(csumA, csumB, variant));
  }

  /** The file, with any header. */
  lemma WordFile(header: string, a: seq<string>, b: seq<string>, size: int)
    requires 4 <= size <= 248 && size % 4 == 0 && !IsS3(header) && RStrip(header) == header
    requires ParseAll(a) == Ok([WordRecord(0x800_0000)]) && ParseAll(b) == Ok([WordRecord(0x801_0000)]) && |a| == |b| == 1
    ensures SoundImages(a, b) && |SentImage(a, size)| == |SentImage(b, size)| == 1
    ensures ReadableFile([header] + a + b + [S7_LINE]) && ResizeText([header] + a + b + [S7_LINE], size).Ok?
  {
    hide WordRecord, IsS3, RStrip, ParseAll, Pieces, EmitAll, ResizeText, ReadableFile, SoundImages, SentImage;
    var ra, rb := [WordRecord(0x800_0000)], [WordRecord(0x801_0000)];
    WordPieces(0x800_0000, size);
    WordPieces(0x801_0000, size);
    S7LineIsTheTail();
    WordImagesAreSound(a, b, ra, rb);
    WordFileIsReadable(header, a, b, ra, rb, size);
    OneLineEach(a, ra, size);
    OneLineEach(b, rb, size);
  }

  lemma WordImagesAreSound(a: seq<string>, b: seq<string>, ra: seq<Record>, rb: seq<Record>)
    requires |a| == |b| == 1 && ra == [WordRecord(0x800_0000)] && rb == [WordRecord(0x801_0000)]
    requires ParseAll(a) == Ok(ra) && ParseAll(b) == Ok(rb)
    ensures SoundImages(a, b)
  {
    BlocksOfOne(ra[0]);
  }

  lemma OneLineEach(image: seq<string>, recs: seq<Record>, size: int)
    requires |recs| == 1 && ParseAll(image) == Ok(recs) && Pieces(recs, size) == recs && EmitAll(recs).Ok?
    ensures |SentImage(image, size)| == 1
  {
  }

  lemma WordFileIsReadable(header: string, a: seq<string>, b: seq<string>, ra: seq<Record>, rb: seq<Record>, size: int)
    requires !IsS3(header) && !IsS3(S7_LINE) && RStrip(header) == header && size % 4 == 0 && size > 0
    requires ra == [WordRecord(0x800_0000)] && rb == [WordRecord(0x801_0000)]
    requires ParseAll(a) == Ok(ra) && ParseAll(b) == Ok(rb) && Pieces(ra, size) == ra && Pieces(rb, size) == rb
    ensures ReadableFile([header] + a + b + [S7_LINE]) && ResizeText([header] + a + b + [S7_LINE], size).Ok?
    ensures EmitAll(ra).Ok? && EmitAll(rb).Ok?
  {
    var h, t := Other(header), Other(RStrip(S7_LINE));
    var recs := [h] + ra + rb + [t];
    hide RStrip, Run, IsS3, Rechunk, Pieces, ParseAll, EmitAll;
    ReadFile(header, a, b, S7_LINE);
    WordBlocks(h, ra[0], rb[0], t);
    HalvesStayApart(h.text, ra, rb, t.text, size);
    WordsAreHex(h, ra[0], rb[0], t);
    hide Blocks;
    EmitAllOk(recs);
    EmitAllOk(ra);
    EmitAllOk(rb);
  }

  lemma WordsAreHex(h: Record, a: Record, b: Record, t: Record)
    requires h.Other? && t.Other? && a == WordRecord(0x800_0000) && b == WordRecord(0x801_0000)
    ensures AllHex([h] + [a] + [b] + [t]) && AllHex([a]) && AllHex([b])
  {
    assert HexCells(WORD);
  }

  lemma WordBlocks(h: Record, a: Record, b: Record, t: Record)
    requires h.Other? && t.Other? && a == WordRecord(0x800_0000) && b == WordRecord(0x801_0000)
    ensures Blocks([h] + [a] + [b] + [t]) == [h] + [a] + [b] + [t] && Blocks([a]) == [a]
  {
    BlocksOfOne(h);
    BlocksOfOne(a);
    BlocksOfOne(b);
    BlocksOfOne(t);
    BlocksApart([h], [a]);
    BlocksApart([h] + [a], [b]);
    BlocksApart([h] + [a] + [b], [t]);
  }
}
