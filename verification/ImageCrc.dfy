/** calculate_crc32 of rdp/charger_case_comms_stm32/build.py, over lines of S-records. */
module ImageCrc {
  import opened Results
  import opened Sequences
  import opened SRecord
  import opened Crc
  import opened ResizeMeaning
  import Hex

  function DigitBits(c: char): (b: Bits)
    ensures |b| == 4
  {
    if Hex.IsDigit(c) then NibbleBits(c) else Zeros(4)
  }

  function CellBits(cell: Cell): (b: Bits)
    ensures |b| == 8
  {
    DigitBits(cell.hi) + DigitBits(cell.lo)
  }

  /** Four bytes as one little-endian word, most significant bit first. */
  function WordOf(cells: seq<Cell>): (b: Bits)
    requires |cells| == 4
    ensures |b| == 32
  {
    CellBits(cells[3]) + CellBits(cells[2]) + CellBits(cells[1]) + CellBits(cells[0])
  }

  /** A payload as little-endian 32-bit words. */
  function LittleEndian(cells: seq<Cell>): Bits
    requires |cells| % 4 == 0
  {
    if cells == [] then [] else WordOf(cells[..4]) + LittleEndian(cells[4..])
  }

  lemma FourLess(n: nat)
    requires n % 4 == 0 && n > 0
    ensures n >= 4 && (n - 4) % 4 == 0
  {
  }

  lemma FourMore(m: nat, n: nat)
    requires m % 4 == 0 && n % 4 == 0
    ensures (m + n) % 4 == 0
  {
  }

  lemma {:induction false} LittleEndianConcat(a: seq<Cell>, b: seq<Cell>)
    requires |a| % 4 == 0 && |b| % 4 == 0 && |a + b| % 4 == 0
    ensures LittleEndian(a + b) == LittleEndian(a) + LittleEndian(b)
    decreases |a|
  {
    hide WordOf;
    if a == [] {
      assert a + b == b;
    } else {
      FourLess(|a|);
      FourMore(|a| - 4, |b|);
      var tail := a[4..] + b;
      assert (a + b)[..4] == a[..4] && (a + b)[4..] == tail;
      LittleEndianConcat(a[4..], b);
      Regroup(WordOf(a[..4]), LittleEndian(a[4..]), LittleEndian(b));
    }
  }

  // ---------------------------------------------------------------- calculate_crc32

  /** The text between address and checksum. */
  function PayloadText(record: string): string {
    var line := RStrip(record);
    Slice(line, 12, |line| - 2)
  }

  /** calculate_crc32 never ends on a payload with an odd number of characters. */
  predicate EvenPayload(record: string) {
    IsS3(record) ==> |PayloadText(record)| % 2 == 0
  }

  predicate HexPayload(record: string) {
    IsS3(record) ==> HexCells(CellsOf(PayloadText(record)))
  }

  predicate HexPayloads(records: seq<string>) {
    records == [] || (HexPayloads(Front(records)) && HexPayload(Last(records)))
  }

  lemma {:induction false} OneBadPayload(records: seq<string>, i: nat)
    requires i < |records| && !HexPayload(records[i])
    ensures !HexPayloads(records)
    decreases |records|
  {
    if i < |records| - 1 {
      OneBadPayload(Front(records), i);
    }
  }

  function RecordMessage(record: string): Bits {
    if IsS3(record) then LittleEndian(Pad4(CellsOf(PayloadText(record)))) else []
  }

  /** What the CRC is taken over: every S3 payload, each filled up with FF to whole words. */
  function LinesMessage(records: seq<string>): Bits {
    if records == [] then [] else LinesMessage(Front(records)) + RecordMessage(Last(records))
  }

  /** The CRC with polynomial 0x04C11DB7 and initial value 0xFFFFFFFF, nothing reflected, no final XOR. */
  function Stm32Crc(message: Bits): (z: Bits)
    ensures |z| == 32
  {
    MsbCrc(POLY, Ones(32), message)
  }

  lemma OneWords()
    ensures WordOf([Cell('F', 'F'), Cell('F', 'F'), Cell('F', 'F'), Cell('F', 'F')]) == Ones(32)
    ensures WordOf([Cell('0', '1'), Cell('0', '0'), Cell('0', '0'), Cell('0', '0')]) == Zeros(31) + [true]
  {
    assert CellBits(Cell('F', 'F')) == Ones(8) && CellBits(Cell('0', '0')) == Zeros(8);
    assert CellBits(Cell('0', '1')) == Zeros(7) + [true];
    hide CellBits;
  }

  /** Of the bytes FF FF FF FF 01 00 00 00 the CRC is 0x04C11DB7. */
  lemma OneCrc()
    ensures ToNat(Stm32Crc(LittleEndian(CellsOf("FFFFFFFF01000000")))) == 0x04C1_1DB7
  {
    var ones, one, z := Cell('F', 'F'), Cell('0', '1'), Cell('0', '0');
    var cells := CellsOf("FFFFFFFF01000000");
    assert cells == [ones, ones, ones, ones, one, z, z, z];
    assert cells[..4] == [ones, ones, ones, ones] && cells[4..] == [one, z, z, z];
    assert cells[4..][..4] == [one, z, z, z] && cells[4..][4..] == [];
    OneWords();
    CrcOfOne(POLY);
    PolynomialIs();
    hide WordOf, ToNat, MsbCrc, CellsOf;
    assert LittleEndian([]) == [];
    assert LittleEndian(cells[4..]) == Zeros(31) + [true];
    assert LittleEndian(cells) == Ones(32) + (Zeros(31) + [true]);
  }

  /** The word that `int(payload[n:n+8], 16)` reads is the little-endian word with its bytes swapped. */
  lemma WordText(cells: seq<Cell>)
    requires |cells| == 4 && HexCells(cells)
    ensures |Text(cells)| == 8 && Hex.AllDigits(Text(cells))
    ensures ByteSwap32(TextBits(Text(cells))) == WordOf(cells)
  {
    TextRoundTrip(cells);
    hide TextBits, Text, NibbleBits, Hex.IsDigit;
    var b := TextBits(Text(cells));
    CellText(cells, 0);
    CellText(cells, 1);
    CellText(cells, 2);
    CellText(cells, 3);
    assert b[0..8] == CellBits(cells[0]) && b[8..16] == CellBits(cells[1]);
    assert b[16..24] == CellBits(cells[2]) && b[24..32] == CellBits(cells[3]);
  }

  /** The two characters of a byte are its eight bits. */
  lemma CellText(cells: seq<Cell>, i: nat)
    requires i < |cells| && HexCells(cells) && Hex.AllDigits(Text(cells))
    ensures TextBits(Text(cells))[8 * i..8 * i + 8] == CellBits(cells[i])
  {
    hide TextBits, Text, NibbleBits, Hex.AllDigits;
    var text, n := Text(cells), 2 * i;
    TextAt(cells, i);
    TextBitsAt(text, n);
    TextBitsAt(text, n + 1);
    TwoNibbles(TextBits(text), 8 * i);
  }

  lemma TwoNibbles(b: Bits, n: nat)
    requires n + 8 <= |b|
    ensures b[n..n + 8] == b[n..n + 4] + b[n + 4..n + 8]
  {
  }

  lemma {:induction false} TextBitsAt(s: string, k: nat)
    requires Hex.AllDigits(s) && k < |s|
    ensures TextBits(s)[4 * k..4 * k + 4] == NibbleBits(s[k])
    decreases |s|
  {
    if k < |s| - 1 {
      TextBitsAt(s[..|s| - 1], k);
    }
  }

  lemma PadKeepsHexBack(cells: seq<Cell>)
    ensures HexCells(Pad4(cells)) <==> HexCells(cells)
  {
    if HexCells(Pad4(cells)) {
      assert forall i | 0 <= i < |cells| :: Pad4(cells)[i] == cells[i];
    }
  }

  lemma CharactersAndBytes(n: nat)
    ensures 2 * n % 8 == 0 <==> n % 4 == 0
  {
  }

  /** calculate_crc32's padding loop, which counts characters. */
  method PadText(payload: string) returns (text: string)
    requires |payload| % 2 == 0
    ensures text == Text(Pad4(CellsOf(payload)))
  {
    text := payload;
    var plen := |payload|;
    ghost var cells := CellsOf(payload);
    CellsRoundTrip(payload);
    CharactersAndBytes(|cells|);
    while plen % 8 != 0
      invariant text == Text(cells) && plen == 2 * |cells| && Pad4(cells) == Pad4(CellsOf(payload))
      invariant plen % 8 == 0 <==> |cells| % 4 == 0
      decreases |Pad4(cells)| - |cells|
    {
      FillText(cells);
      cells := cells + [FILL];
      text := text + "FF";
      plen := plen + 2;
      CharactersAndBytes(|cells|);
    }
  }

  /** The first four of some bytes, and the others. */
  lemma SplitText(rest: seq<Cell>)
    requires |rest| >= 4
    ensures Text(rest) == Text(rest[..4]) + Text(rest[4..])
  {
    assert rest == rest[..4] + rest[4..];
    TextConcat(rest[..4], rest[4..]);
  }

  lemma SplitHex(rest: seq<Cell>)
    requires |rest| >= 4
    ensures HexCells(rest) <==> HexCells(rest[..4]) && HexCells(rest[4..])
  {
    if HexCells(rest[..4]) && HexCells(rest[4..]) {
      forall i | 0 <= i < |rest| ensures Hex.IsDigit(rest[i].hi) && Hex.IsDigit(rest[i].lo) {
        if i < 4 {
          assert rest[i] == rest[..4][i];
        } else {
          assert rest[i] == rest[4..][i - 4];
        }
      }
    }
  }

  lemma NothingMore(p: Bits, c: Bits)
    requires |p| == |c| == 32
    ensures HexCells([]) && MsbCrc(p, c, LittleEndian([])) == c
  {
  }

  lemma SplitWord(p: Bits, c: Bits, rest: seq<Cell>)
    requires |p| == |c| == 32 && |rest| >= 4 && |rest| % 4 == 0 && |rest[4..]| % 4 == 0
    ensures MsbCrc(p, c, LittleEndian(rest)) == MsbCrc(p, MsbCrc(p, c, WordOf(rest[..4])), LittleEndian(rest[4..]))
  {
    var others := rest[4..];
    MsbCrcConcat(p, c, WordOf(rest[..4]), LittleEndian(others));
  }

  /** One word of calculate_crc32's inner loop; `p` is the polynomial and `q` its reflected form. */
  method AddWord(text: string, crc: Bits, q: Bits, ghost p: Bits, ghost c: Bits, ghost cells: seq<Cell>)
    returns (crc': Bits, ok: bool)
    requires |cells| == 4 && text == Text(cells)
    requires |crc| == |c| == |p| == 32 && q == Reverse(p) && crc == Not(Reverse(c))
    ensures |crc'| == 32 && (ok <==> HexCells(cells))
    ensures ok ==> crc' == Not(Reverse(MsbCrc(p, c, WordOf(cells))))
  {
    TextRoundTrip(cells);
    crc', ok := crc, Hex.AllDigits(text);
    if ok {
      var word := TextBits(text);
      var swapped := BitSwap(word);
      WordText(cells);
      WordSimulation(p, c, word);
      crc' := ZlibWord(q, swapped, crc);
    }
  }

  /** calculate_crc32's inner loop, over one padded payload. */
  method AddPayload(payload: string, crc: Bits, q: Bits, ghost p: Bits, ghost c: Bits, ghost cells: seq<Cell>)
    returns (crc': Bits, ok: bool)
    requires payload == Text(cells) && |cells| % 4 == 0
    requires |crc| == |c| == |p| == 32 && q == Reverse(p) && crc == Not(Reverse(c))
    ensures |crc'| == 32 && (ok <==> HexCells(cells))
    ensures ok ==> crc' == Not(Reverse(MsbCrc(p, c, LittleEndian(cells))))
  {
    hide MsbCrc, LittleEndian, WordOf, Text, HexCells, Reverse, Not;
    crc', ok := crc, true;
    ghost var now, rest := c, cells;
    var n := 0;
    while n < |payload|
      invariant n <= |payload| && payload[n..] == Text(rest) && |rest| % 4 == 0
      invariant HexCells(cells) <==> HexCells(rest)
      invariant |crc'| == |now| == 32 && crc' == Not(Reverse(now))
      invariant MsbCrc(p, c, LittleEndian(cells)) == MsbCrc(p, now, LittleEndian(rest))
    {
      SplitText(rest);
      SplitHex(rest);
      FourLess(|rest|);
      assert payload[n..n + 8] == payload[n..][..8] == Text(rest[..4]);
      assert payload[n + 8..] == payload[n..][8..] == Text(rest[4..]);
      crc', ok := AddWord(payload[n..n + 8], crc', q, p, now, rest[..4]);
      if !ok {
        return;
      }
      SplitWord(p, now, rest);
      now, rest := MsbCrc(p, now, WordOf(rest[..4])), rest[4..];
      n := n + 8;
    }
    NothingMore(p, now);
  }

  lemma AppendRecord(p: Bits, c: Bits, records: seq<string>, i: nat)
    requires |p| == |c| == 32 && i < |records|
    ensures MsbCrc(p, c, LinesMessage(records[..i + 1]))
            == MsbCrc(p, MsbCrc(p, c, LinesMessage(records[..i])), RecordMessage(records[i]))
  {
    assert Front(records[..i + 1]) == records[..i];
    MsbCrcConcat(p, c, LinesMessage(records[..i]), RecordMessage(records[i]));
  }

  /** calculate_crc32's outer loop, with the initial value already in `crc`. */
  method AddRecords(records: seq<string>, initial: Bits, q: Bits, ghost p: Bits, ghost c: Bits)
    returns (crc: Bits, ok: bool)
    requires forall i | 0 <= i < |records| :: EvenPayload(records[i])
    requires |initial| == |c| == |p| == 32 && q == Reverse(p) && initial == Not(Reverse(c))
    ensures |crc| == 32 && (ok <==> HexPayloads(records))
    ensures ok ==> crc == Not(Reverse(MsbCrc(p, c, LinesMessage(records))))
  {
    hide LittleEndian, HexCells, Reverse, Not, MsbStep;
    crc, ok := initial, true;
    ghost var now := c;
    assert records[..0] == [];
    for i := 0 to |records|
      invariant |crc| == |now| == 32 && crc == Not(Reverse(now))
      invariant HexPayloads(records[..i])
      invariant now == MsbCrc(p, c, LinesMessage(records[..i]))
    {
      var record := records[i];
      assert EvenPayload(record);
      if IsS3(record) {
        var line := RStrip(record);
        var payload := PadText(Slice(line, 12, |line| - 2));
        ghost var cells := CellsOf(PayloadText(record));
        PadKeepsHexBack(cells);
        crc, ok := AddPayload(payload, crc, q, p, now, Pad4(cells));
        if !ok {
          OneBadPayload(records, i);
          return;
        }
      }
      assert Front(records[..i + 1]) == records[..i] && HexPayload(record);
      AppendRecord(p, c, records, i);
      now := MsbCrc(p, now, RecordMessage(record));
    }
    assert records[..|records|] == records;
  }

  /** calculate_crc32: the reflected CRC over bit-swapped words is the plain CRC of the image. */
  method CalculateCrc32(records: seq<string>) returns (r: Result<Bits>)
    requires forall i | 0 <= i < |records| :: EvenPayload(records[i])
    ensures r.Ok? <==> HexPayloads(records)
    ensures r.Ok? ==> r.value == Stm32Crc(LinesMessage(records))
  {
    assert Zeros(32) == Not(Reverse(Ones(32)));
    PolynomialsMatch();
    var crc, ok := AddRecords(records, Zeros(32), POLY_REFLECTED, POLY, Ones(32));
    if !ok {
      return ValueError;
    }
    var swapped := BitSwap(crc);
    ghost var c := Stm32Crc(LinesMessage(records));
    NotReverse(c);
    NotReverse(Reverse(c));
    r := Ok(Not(swapped));
  }
}
