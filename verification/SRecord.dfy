/** Motorola S3 records as text: the parts of a line that dfu.py and build.py look at, and the
    records that make_s3 writes. One payload byte is a cell of two characters. */
module SRecord {
  import Hex
  import opened Results

  datatype Cell = Cell(hi: char, lo: char)

  /** A line after `rstrip()`. */
  datatype Record = S3(address: nat, payload: seq<Cell>) | Other(text: string)

  const FILL := Cell('F', 'F')

  function Text(cells: seq<Cell>): (s: string)
    ensures |s| == 2 * |cells|
  {
    if cells == [] then "" else [cells[0].hi, cells[0].lo] + Text(cells[1..])
  }

  predicate HexCells(cells: seq<Cell>) {
    forall i | 0 <= i < |cells| :: Hex.IsDigit(cells[i].hi) && Hex.IsDigit(cells[i].lo)
  }

  function CellsOf(text: string): (cells: seq<Cell>)
    ensures |cells| == |text| / 2
  {
    seq(|text| / 2, i requires 0 <= i < |text| / 2 => Cell(text[2 * i], text[2 * i + 1]))
  }

  lemma {:induction false} TextConcat(a: seq<Cell>, b: seq<Cell>)
    ensures Text(a + b) == Text(a) + Text(b)
  {
    if a == [] {
      assert a + b == b;
    } else {
      assert (a + b)[1..] == a[1..] + b;
      TextConcat(a[1..], b);
    }
  }

  lemma {:induction false} TextAt(cells: seq<Cell>, i: nat)
    requires i < |cells|
    ensures Text(cells)[2 * i] == cells[i].hi && Text(cells)[2 * i + 1] == cells[i].lo
  {
    if i > 0 {
      TextAt(cells[1..], i - 1);
    }
  }

  lemma TextRoundTrip(cells: seq<Cell>)
    ensures CellsOf(Text(cells)) == cells
    ensures Hex.AllDigits(Text(cells)) <==> HexCells(cells)
  {
    forall i | 0 <= i < |cells|
      ensures CellsOf(Text(cells))[i] == cells[i]
      ensures Text(cells)[2 * i] == cells[i].hi && Text(cells)[2 * i + 1] == cells[i].lo
    {
      TextAt(cells, i);
    }
    if HexCells(cells) {
      forall k | 0 <= k < |Text(cells)| ensures Hex.IsDigit(Text(cells)[k]) {
        TextAt(cells, k / 2);
      }
    }
  }

  lemma {:induction false} CellsRoundTrip(text: string)
    requires |text| % 2 == 0
    ensures Text(CellsOf(text)) == text
  {
    forall k | 0 <= k < |text| ensures Text(CellsOf(text))[k] == text[k] {
      TextAt(CellsOf(text), k / 2);
    }
  }

  // ---------------------------------------------------------------- reading a line

  predicate IsSpace(c: char) {
    c == ' ' || '\t' <= c <= '\r' || '\U{1c}' <= c <= '\U{1f}'
  }

  function RStrip(line: string): (s: string)
    ensures s <= line
    ensures s == "" || !IsSpace(s[|s| - 1])
  {
    if line != "" && IsSpace(line[|line| - 1]) then RStrip(line[..|line| - 1]) else line
  }

  /** The white space that `rstrip()` takes off. */
  const WHITE: string := [' ', '\t', '\n', '\U{0b}', '\U{0c}', '\r', '\U{1c}', '\U{1d}', '\U{1e}', '\U{1f}']

  /** All white space at the end goes, line breaks among it, and nothing else. */
  lemma {:induction false} StripsWhite(line: string)
    ensures var s := RStrip(line);
            && s <= line && (forall i | |s| <= i < |line| :: line[i] in WHITE)
            && (s == "" || s[|s| - 1] !in WHITE)
  {
    assert forall c :: IsSpace(c) <==> c in WHITE;
    hide IsSpace;
    if line != "" && IsSpace(line[|line| - 1]) {
      StripsWhite(line[..|line| - 1]);
    }
  }

  predicate IsS3(line: string) {
    "S3" <= line
  }

  /** `line[from:to]` with Python's clipping. */
  function Slice(line: string, from: nat, to: int): (s: string)
  {
    var lo := if from < |line| then from else |line|;
    var hi := if to < lo then lo else if to < |line| then to else |line|;
    line[lo..hi]
  }

  /** The pairs `line[n:n+2]` for n in range(12, len(line) - 2, 2). */
  function PayloadCells(line: string): (cells: seq<Cell>)
  {
    var count := if |line| <= 14 then 0 else (|line| - 13) / 2;
    seq(count, i requires 0 <= i < count => Cell(line[12 + 2 * i], line[13 + 2 * i]))
  }

  /** What resize reads from a stripped line; `int(line[4:12], 16)` may fail. */
  function Parse(line: string): (r: Result<Record>) {
    if !IsS3(line) then Ok(Other(line))
    else
      var field := Slice(line, 4, 12);
      if field == "" || !Hex.AllDigits(field) then ValueError
      else Ok(S3(Hex.Value(field), PayloadCells(line)))
  }

  // ---------------------------------------------------------------- writing a record

  function Pad4(cells: seq<Cell>): (p: seq<Cell>)
    ensures |p| % 4 == 0 && cells <= p && |p| < |cells| + 4
    ensures forall i | |cells| <= i < |p| :: p[i] == Cell('F', 'F')
    decreases (4 - |cells| % 4) % 4
  {
    if |cells| % 4 == 0 then cells else Pad4(cells + [FILL])
  }

  /** The sum of the two-character numbers of `rec`. */
  function PairSum(rec: string): nat
    requires Hex.AllDigits(rec)
  {
    if |rec| <= 2 then Hex.Value(rec) else Hex.Value(rec[..2]) + PairSum(rec[2..])
  }

  lemma {:induction false} PairSumAppend(rec: string, pair: string)
    requires Hex.AllDigits(rec) && Hex.AllDigits(pair) && |rec| % 2 == 0 && |pair| <= 2
    ensures Hex.AllDigits(rec + pair) && PairSum(rec + pair) == PairSum(rec) + Hex.Value(pair)
    decreases |rec|
  {
    if rec == "" {
      assert rec + pair == pair;
    } else if pair == "" {
      assert rec + pair == rec;
    } else {
      assert (rec + pair)[..2] == rec[..2] && (rec + pair)[2..] == rec[2..] + pair;
      PairSumAppend(rec[2..], pair);
      assert |rec| == 2 ==> rec[..2] == rec && rec[2..] == "";
    }
  }

  function Body(address: nat, cells: seq<Cell>): string {
    Hex.Format(|cells| + 5, 2) + Hex.Format(address, 8) + Text(cells)
  }

  /** The record for a payload that needs no more padding. */
  function Emit(address: nat, cells: seq<Cell>): (r: Result<string>) {
    var body := Body(address, cells);
    if !Hex.AllDigits(body) then ValueError
    else Ok("S3" + body + Hex.Format(255 - PairSum(body) % 256, 2))
  }

  /** The sum of the first `n` bytes after the two characters that name the kind of record. */
  function ByteSum(line: string, n: nat): nat
    requires 2 + 2 * n <= |line| && Hex.AllDigits(line[2..])
  {
    if n == 0 then 0
    else
      assert line[2 * n..2 * n + 2] == line[2..][2 * n - 2..2 * n];
      ByteSum(line, n - 1) + Hex.Value(line[2 * n..2 * n + 2])
  }

  /** A count of the bytes that follow, and all bytes, the count and the checksum among them, sum up to 255 modulo 256. */
  predicate KeepsMotorolaRules(line: string) {
    && |line| % 2 == 0 && |line| >= 4
    && Hex.AllDigits(line[2..])
    && Hex.Value(line[2..4]) == (|line| - 4) / 2
    && ByteSum(line, (|line| - 2) / 2) % 256 == 255
  }

  /** One byte more of the sum. */
  lemma NextByte(line: string, n: nat, before: nat, v: nat)
    requires 4 + 2 * n <= |line| && Hex.AllDigits(line[2..]) && ByteSum(line, n) == before
    requires Hex.IsDigit(line[2 + 2 * n]) && Hex.IsDigit(line[3 + 2 * n])
    requires v == 16 * Hex.DigitValue(line[2 + 2 * n]) + Hex.DigitValue(line[3 + 2 * n])
    ensures ByteSum(line, n + 1) == before + v
  {
    Hex.ValueOfTwo(line[2 + 2 * n], line[3 + 2 * n]);
    assert line[2 + 2 * n..4 + 2 * n] == [line[2 + 2 * n], line[3 + 2 * n]];
  }

  predicate IsMotorolaS3(line: string) {
    IsS3(line) && |line| >= 14 && KeepsMotorolaRules(line)
  }

  lemma NoPairs()
    ensures PairSum("") == 0
  {
  }

  /** What the loop sums up is the sum over the places of the line. */
  lemma {:induction false} SumByPlaces(line: string, n: nat)
    requires 2 + 2 * n <= |line| && Hex.AllDigits(line[2..])
    ensures Hex.AllDigits(line[2..2 + 2 * n]) && ByteSum(line, n) == PairSum(line[2..2 + 2 * n])
  {
    NoPairs();
    hide PairSum, Hex.Value;
    assert line[2..2 + 2 * n] == line[2..][..2 * n];
    if n > 0 {
      SumByPlaces(line, n - 1);
      var front, pair := line[2..2 * n], line[2 * n..2 * n + 2];
      assert pair == line[2..][2 * n - 2..2 * n] && front + pair == line[2..2 + 2 * n];
      PairSumAppend(front, pair);
    } else {
      assert line[2..2 + 2 * n] == "";
    }
  }

  /** A line closed by its checksum keeps the sum. */
  lemma ChecksumCloses(line: string)
    requires |line| % 2 == 0 && |line| >= 4 && Hex.AllDigits(line[2..])
    requires Hex.AllDigits(line[2..|line| - 2]) && Hex.AllDigits(line[|line| - 2..])
    requires Hex.Value(line[|line| - 2..]) == 255 - PairSum(line[2..|line| - 2]) % 256
    ensures ByteSum(line, (|line| - 2) / 2) % 256 == 255
  {
    hide Hex.Value, Hex.AllDigits, PairSum, ByteSum;
    var n := (|line| - 2) / 2;
    SumByPlaces(line, n - 1);
    assert 2 + 2 * (n - 1) == |line| - 2 == 2 * n;
    LastByte(line, n);
    Complement(PairSum(line[2..|line| - 2]));
  }

  lemma LastByte(line: string, n: nat)
    requires n > 0 && |line| == 2 + 2 * n && Hex.AllDigits(line[2..])
    ensures Hex.AllDigits(line[2 * n..]) && ByteSum(line, n) == ByteSum(line, n - 1) + Hex.Value(line[2 * n..])
  {
    hide Hex.Value;
    assert line[2 * n..2 * n + 2] == line[2 * n..] == line[2..][2 * n - 2..];
  }

  lemma Complement(sum: nat)
    ensures (sum + (255 - sum % 256)) % 256 == 255
  {
    assert sum + (255 - sum % 256) == 256 * (sum / 256) + 255;
  }

  lemma FillText(cells: seq<Cell>)
    ensures Text(cells + [FILL]) == Text(cells) + "FF"
  {
    TextConcat(cells, [FILL]);
    assert Text([FILL]) == "FF";
  }

  /** make_s3's first loop. */
  method PadPayload(payload: string, payloadCount: nat) returns (text: string, count: nat)
    requires |payload| == 2 * payloadCount
    ensures text == Text(Pad4(CellsOf(payload))) && count == |Pad4(CellsOf(payload))|
  {
    text, count := payload, payloadCount;
    ghost var cells := CellsOf(payload);
    CellsRoundTrip(payload);
    while count % 4 != 0
      invariant text == Text(cells) && count == |cells| && Pad4(cells) == Pad4(CellsOf(payload))
      decreases |Pad4(cells)| - count
    {
      FillText(cells);
      cells := cells + [FILL];
      text := text + "FF";
      count := count + 1;
    }
  }

  /** make_s3's second loop: the sum, unless some pair is not a number. */
  method Checksum(rec: string) returns (csum: Result<nat>)
    ensures csum == if Hex.AllDigits(rec) then Ok(PairSum(rec)) else ValueError
  {
    NoPairs();
    hide PairSum, Hex.Value;
    var sum, n := 0, 0;
    while n < |rec|
      invariant n <= |rec| + 1 && n % 2 == 0
      invariant n < |rec| ==> Hex.AllDigits(rec[..n]) && sum == PairSum(rec[..n])
      invariant |rec| <= n ==> Hex.AllDigits(rec) && sum == PairSum(rec)
    {
      var pair := Slice(rec, n, n + 2);
      if !Hex.AllDigits(pair) {
        assert exists i :: n <= i < |rec| && !Hex.IsDigit(rec[i]);
        return ValueError;
      }
      PairSumAppend(rec[..n], pair);
      assert n + 2 < |rec| ==> rec[..n] + pair == rec[..n + 2];
      assert |rec| <= n + 2 ==> rec[..n] + pair == rec;
      sum := sum + Hex.Value(pair);
      n := n + 2;
    }
    csum := Ok(sum);
  }

  /** make_s3. */
  method MakeS3(address: nat, payload: string, payloadCount: nat) returns (r: Result<string>)
    requires |payload| == 2 * payloadCount
    ensures r == Emit(address, Pad4(CellsOf(payload)))
  {
    hide PairSum, Hex.Format, Hex.Value, Hex.AllDigits, Text, Pad4, CellsOf;
    var text, count := PadPayload(payload, payloadCount);
    var rec := Hex.Format(count + 5, 2) + Hex.Format(address, 8) + text;
    var csum := Checksum(rec);
    if csum.ValueError? {
      return ValueError;
    }
    r := Ok("S3" + rec + Hex.Format(255 - csum.value % 256, 2));
  }

  // ---------------------------------------------------------------- what make_s3 writes

  lemma TwoDigits(s: string)
    requires Hex.AllDigits(s) && |s| <= 2
    ensures Hex.Value(s) < 256
  {
    if |s| == 2 {
      assert s[..1] == [s[0]];
    }
  }

  lemma RStripStable(line: string)
    requires line != "" && Hex.IsDigit(line[|line| - 1])
    ensures RStrip(line) == line
  {
  }

  /** The count and address fields have their nominal widths exactly when the values fit in them. */
  predicate Fits(address: nat, cells: seq<Cell>) {
    address < 0x1_0000_0000 && |cells| <= 250
  }

  lemma FieldWidths(address: nat, count: nat)
    ensures |Hex.Format(count, 2)| == 2 <==> count < 256
    ensures |Hex.Format(address, 8)| == 8 <==> address < 0x1_0000_0000
  {
    Hex.FormatWidth(count, 2);
    Hex.FormatWidth(address, 8);
    assert Hex.Pow16(2) == 256;
    assert Hex.Pow16(8) == 256 * 256 * 256 * 256 by {
      assert Hex.Pow16(4) == 256 * 256;
      assert Hex.Pow16(6) == 256 * 256 * 256;
    }
  }

  lemma Layout(c: string, a: string, t: string, k: string)
    requires |c| == |k| == 2 && |a| == 8
    ensures var line := "S3" + (c + a + t) + k;
            && line[2..4] == c && line[4..12] == a && line[12..|line| - 2] == t
            && line[2..|line| - 2] == c + a + t && line[|line| - 2..] == k && line[2..] == c + a + t + k
  {
  }

  lemma DigitsConcat(a: string, b: string)
    requires Hex.AllDigits(a) && Hex.AllDigits(b)
    ensures Hex.AllDigits(a + b)
  {
  }

  lemma BodyDigits(address: nat, cells: seq<Cell>)
    requires HexCells(cells)
    ensures Hex.AllDigits(Body(address, cells))
  {
    TextRoundTrip(cells);
    DigitsConcat(Hex.Format(|cells| + 5, 2), Hex.Format(address, 8));
    DigitsConcat(Hex.Format(|cells| + 5, 2) + Hex.Format(address, 8), Text(cells));
  }

  /** A line laid out with fields of nominal width reads as its address and payload. */
  lemma LayoutParses(line: string, a: string, cells: seq<Cell>)
    requires IsS3(line) && |line| == 14 + 2 * |cells| && line[12..|line| - 2] == Text(cells)
    requires a == line[4..12] && Hex.AllDigits(a)
    ensures Parse(line) == Ok(S3(Hex.Value(a), cells))
  {
    TextRoundTrip(cells);
    forall i | 0 <= i < |cells| ensures PayloadCells(line)[i] == cells[i] {
      assert line[12 + 2 * i] == Text(cells)[2 * i] && line[13 + 2 * i] == Text(cells)[2 * i + 1];
      TextAt(cells, i);
    }
    assert PayloadCells(line) == cells;
  }

  /** The text of a record that fits, field by field. */
  lemma EmitLayout(address: nat, cells: seq<Cell>) returns (line: string, k: nat)
    requires HexCells(cells) && Fits(address, cells)
    ensures Emit(address, cells) == Ok(line) && k < 256
    ensures k == 255 - PairSum(Body(address, cells)) % 256
    ensures |line| == 14 + 2 * |cells| && IsS3(line) && Hex.AllDigits(line[2..])
    ensures line[2..4] == Hex.Format(|cells| + 5, 2) && line[4..12] == Hex.Format(address, 8)
    ensures line[12..|line| - 2] == Text(cells) && line[|line| - 2..] == Hex.Format(k, 2)
    ensures line[2..|line| - 2] == Body(address, cells)
  {
    BodyDigits(address, cells);
    FieldWidths(address, |cells| + 5);
    k := 255 - PairSum(Body(address, cells)) % 256;
    FieldWidths(address, k);
    DigitsConcat(Body(address, cells), Hex.Format(k, 2));
    Layout(Hex.Format(|cells| + 5, 2), Hex.Format(address, 8), Text(cells), Hex.Format(k, 2));
    line := Emit(address, cells).value;
  }

  /** An emitted record that fits reads back as its own address and payload, and keeps the Motorola rules. */
  lemma EmitReadsBack(address: nat, cells: seq<Cell>)
    requires HexCells(cells) && Fits(address, cells)
    ensures Emit(address, cells).Ok?
    ensures IsMotorolaS3(Emit(address, cells).value)
    ensures RStrip(Emit(address, cells).value) == Emit(address, cells).value
    ensures Parse(Emit(address, cells).value) == Ok(S3(address, cells))
  {
    hide Emit, PairSum, Body, Text, Hex.Format, CellsOf;
    var line, k := EmitLayout(address, cells);
    RStripStable(line);
    LayoutParses(line, line[4..12], cells);
    ChecksumCloses(line);
  }

  lemma AddPair(hi: char, lo: char, rest: string)
    requires Hex.IsDigit(hi) && Hex.IsDigit(lo) && Hex.AllDigits(rest)
    ensures var rec := [hi, lo] + rest;
            Hex.AllDigits(rec) && PairSum(rec) == 16 * Hex.DigitValue(hi) + Hex.DigitValue(lo) + PairSum(rest)
  {
    var rec := [hi, lo] + rest;
    assert rec[..2] == [hi, lo] && rec[2..] == rest;
    assert rest == "" ==> rec == [hi, lo];
    Hex.ValueOfTwo(hi, lo);
  }

  /** One record in full. */
  lemma OneRecord()
    ensures Emit(0x800_0000, [Cell('0', '1'), Cell('2', '3'), Cell('4', '5'), Cell('6', '7')])
            == Ok("S30908000000012345671E")
  {
    WordFields();
    WordText();
    WordSum();
    hide PairSum, Text, Hex.Format, Hex.AllDigits;
    assert "09" + "08000000" + "01234567" == "090800000001234567";
    assert "S3" + "090800000001234567" + "1E" == "S30908000000012345671E";
  }

  lemma WordText()
    ensures Text([Cell('0', '1'), Cell('2', '3'), Cell('4', '5'), Cell('6', '7')]) == "01234567"
  {
    assert Text([Cell('6', '7')]) == "67";
    assert Text([Cell('4', '5'), Cell('6', '7')]) == "4567";
  }

  lemma WordFields()
    ensures Hex.Format(9, 2) == "09" && Hex.Format(0x800_0000, 8) == "08000000" && Hex.Format(0x1E, 2) == "1E"
  {
    hide Hex.Format;
    Hex.FormatDigit(9, 2);
    Hex.FormatDigit(0, 1);
    Hex.FormatDigit(0x1E, 2);
    Hex.FormatDigit(1, 1);
    Hex.FormatDigit(0x800_0000, 8);
    Hex.FormatDigit(0x80_0000, 7);
    Hex.FormatDigit(0x8_0000, 6);
    Hex.FormatDigit(0x8000, 5);
    Hex.FormatDigit(0x800, 4);
    Hex.FormatDigit(0x80, 3);
    Hex.FormatDigit(8, 2);
  }

  lemma DataSum()
    ensures Hex.AllDigits("01234567") && PairSum("01234567") == 0xD0
  {
    assert PairSum("") == 0;
    hide PairSum, Hex.AllDigits;
    AddPair('6', '7', "");
    assert ['6', '7'] + "" == "67";
    AddPair('4', '5', "67");
    assert ['4', '5'] + "67" == "4567";
    AddPair('2', '3', "4567");
    assert ['2', '3'] + "4567" == "234567";
    AddPair('0', '1', "234567");
    assert ['0', '1'] + "234567" == "01234567";
  }

  lemma AddressSum()
    ensures Hex.AllDigits("0800000001234567") && PairSum("0800000001234567") == 0xD8
  {
    DataSum();
    hide PairSum, Hex.AllDigits;
    AddPair('0', '0', "01234567");
    assert ['0', '0'] + "01234567" == "0001234567";
    AddPair('0', '0', "0001234567");
    assert ['0', '0'] + "0001234567" == "000001234567";
    AddPair('0', '0', "000001234567");
    assert ['0', '0'] + "000001234567" == "00000001234567";
    AddPair('0', '8', "00000001234567");
    assert ['0', '8'] + "00000001234567" == "0800000001234567";
  }

  lemma WordSum()
    ensures Hex.AllDigits("090800000001234567") && PairSum("090800000001234567") == 0xE1
  {
    AddressSum();
    hide PairSum, Hex.AllDigits;
    AddPair('0', '9', "0800000001234567");
    assert ['0', '9'] + "0800000001234567" == "090800000001234567";
  }

  /** The length of a line, and its count field when that is two digits wide. */
  lemma LineParts(c: string, a: string, t: string, k: string)
    requires |k| == 2
    ensures var line := "S3" + (c + a + t) + k;
            |line| - 4 == |c| + |a| + |t| && (|c| == 2 ==> line[2..4] == c)
  {
  }

  /** What the count of a line says when it keeps the Motorola rules. */
  lemma MotorolaCount(line: string)
    requires IsMotorolaS3(line)
    ensures |line| % 2 == 0 && (|line| - 4) / 2 == Hex.Value(line[2..4]) < 256
  {
    hide PairSum, Hex.Value;
    TwoDigits(line[2..4]);
  }

  lemma EmitIs(address: nat, cells: seq<Cell>)
    requires HexCells(cells)
    ensures Hex.AllDigits(Body(address, cells))
    ensures Emit(address, cells)
            == Ok("S3" + Body(address, cells) + Hex.Format(255 - PairSum(Body(address, cells)) % 256, 2))
  {
    BodyDigits(address, cells);
  }

  /** The widths of the fields of an emitted line. */
  lemma EmitWidths(address: nat, cells: seq<Cell>) returns (line: string, c: nat, a: nat)
    requires HexCells(cells)
    ensures Emit(address, cells) == Ok(line) && |line| - 4 == c + a + 2 * |cells| && c >= 2 && a >= 8
    ensures (c == 2 <==> |cells| <= 250) && (a == 8 <==> address < 0x1_0000_0000)
    ensures c == 2 ==> Hex.AllDigits(line[2..4]) && Hex.Value(line[2..4]) == |cells| + 5
  {
    EmitIs(address, cells);
    FieldWidths(address, |cells| + 5);
    hide Emit, PairSum, HexCells, Text, Hex.Format, Hex.Value, Hex.AllDigits;
    var count, at, k := Hex.Format(|cells| + 5, 2), Hex.Format(address, 8), 255 - PairSum(Body(address, cells)) % 256;
    FieldWidths(address, k);
    LineParts(count, at, Text(cells), Hex.Format(k, 2));
    line, c, a := "S3" + (count + at + Text(cells)) + Hex.Format(k, 2), |count|, |at|;
  }

  /** With a field that is too wide, there are too many bytes for the count. */
  lemma FieldsSlide(bytes: nat, c: nat, a: nat)
    ensures bytes > 250 && c > 2 && a >= 8 ==> (c + a + 2 * bytes) / 2 >= 256
    ensures c == 2 && a > 8 && (c + a + 2 * bytes) % 2 == 0 ==> (c + a + 2 * bytes) / 2 >= bytes + 6
  {
  }

  /** A record that does not fit breaks the Motorola rules: its fields slide along. */
  lemma OversizeIsNotMotorola(address: nat, cells: seq<Cell>)
    requires HexCells(cells) && !Fits(address, cells)
    ensures Emit(address, cells).Ok? && !IsMotorolaS3(Emit(address, cells).value)
  {
    var line, c, a := EmitWidths(address, cells);
    hide Emit, HexCells, IsMotorolaS3, Hex.AllDigits, Hex.Value;
    FieldsSlide(|cells|, c, a);
    if IsMotorolaS3(line) {
      MotorolaCount(line);
      assert false;
    }
  }
}
