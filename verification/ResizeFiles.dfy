/** What resize promises about files: the theorems on records, carried over to lines of text. */
module ResizeFiles {
  import opened Results
  import opened Sequences
  import opened SRecord
  import opened Resize
  import opened ResizeMeaning
  import opened ResizeCompose
  import opened ResizeCrc
  import opened ImageCrc
  import Hex

  /** Every run lies in the 32-bit address space. */
  predicate InAddressSpace(rec: Record) {
    rec.S3? ==> End(rec) <= 0x1_0000_0000
  }

  /** A record as resize writes it: short enough and low enough for its fields. */
  predicate Writable(rec: Record) {
    match rec
    case S3(address, payload) => Fits(address, payload)
    case Other(text) => !IsS3(text) && RStrip(text) == text
  }

  lemma {:induction false} ChunksFit(address: nat, cells: seq<Cell>, size: int)
    requires 0 < size <= 248 && size % 4 == 0 && address + |cells| <= 0x1_0000_0000
    ensures forall i | 0 <= i < |Chunks(address, cells, size)| :: Writable(Chunks(address, cells, size)[i])
    decreases |cells|
  {
    if cells != [] && size < |cells| {
      ChunksFit(address + size, cells[size..], size);
    }
  }

  lemma {:induction false} RechunkFits(blocks: seq<Record>, size: int)
    requires 0 < size <= 248 && size % 4 == 0
    requires forall i | 0 <= i < |blocks| :: InAddressSpace(blocks[i]) && (blocks[i].Other? ==> Writable(blocks[i]))
    ensures forall i | 0 <= i < |Rechunk(blocks, size)| :: Writable(Rechunk(blocks, size)[i])
    decreases |blocks|
  {
    if blocks != [] {
      RechunkFits(Front(blocks), size);
      var last := Last(blocks);
      assert InAddressSpace(last) && (last.Other? ==> Writable(last));
      if last.S3? {
        ChunksFit(last.address, last.payload, size);
      }
    }
  }

  lemma {:induction false} RStripTwice(line: string)
    ensures RStrip(RStrip(line)) == RStrip(line)
  {
    if line != "" && IsSpace(line[|line| - 1]) {
      RStripTwice(line[..|line| - 1]);
    }
  }

  lemma {:induction false} RStripKeepsPrefix(line: string)
    ensures IsS3(RStrip(line)) <==> IsS3(line)
  {
    if line != "" && IsSpace(line[|line| - 1]) {
      RStripKeepsPrefix(line[..|line| - 1]);
    }
  }

  lemma {:induction false} ParsedOthersAreWritable(lines: seq<string>)
    requires ParseAll(lines).Ok?
    ensures forall i | 0 <= i < |lines| && ParseAll(lines).value[i].Other? :: Writable(ParseAll(lines).value[i])
  {
    if lines != [] {
      ParsedOthersAreWritable(lines[..|lines| - 1]);
      RStripTwice(lines[|lines| - 1]);
    }
  }

  lemma {:induction false} BlockOthers(recs: seq<Record>)
    requires forall i | 0 <= i < |recs| && recs[i].Other? :: Writable(recs[i])
    ensures forall i | 0 <= i < |Blocks(recs)| && Blocks(recs)[i].Other? :: Writable(Blocks(recs)[i])
  {
    if recs != [] {
      BlockOthers(Front(recs));
    }
  }

  /** The lines of a parsed file whose runs stay below 2^32 can all be written back. */
  lemma {:induction false} OutputIsWritable(lines: seq<string>, size: int)
    requires 0 < size <= 248 && size % 4 == 0 && ParseAll(lines).Ok?
    requires var recs := ParseAll(lines).value;
             Unwritten(recs, size) == 0 && forall i | 0 <= i < |Blocks(recs)| :: InAddressSpace(Blocks(recs)[i])
    ensures var out := Run(ParseAll(lines).value, size).out; forall i | 0 <= i < |out| :: Writable(out[i])
  {
    var recs := ParseAll(lines).value;
    ParsedOthersAreWritable(lines);
    BlockOthers(recs);
    RechunkFits(Blocks(recs), size);
    StreamIsRechunk(recs, size);
  }

  lemma {:induction false} BodyDigitsBack(address: nat, cells: seq<Cell>)
    requires Hex.AllDigits(Body(address, cells))
    ensures HexCells(cells)
  {
    var head := Hex.Format(|cells| + 5, 2) + Hex.Format(address, 8);
    assert Body(address, cells) == head + Text(cells);
    assert forall i | 0 <= i < |Text(cells)| :: Text(cells)[i] == Body(address, cells)[|head| + i];
    TextRoundTrip(cells);
  }

  lemma RecordReadsBack(rec: Record)
    requires Writable(rec) && EmitRecord(rec).Ok?
    ensures Parse(RStrip(EmitRecord(rec).value)) == Ok(rec)
  {
    if rec.S3? {
      hide Parse, RStrip, Text;
      BodyDigitsBack(rec.address, rec.payload);
      EmitReadsBack(rec.address, rec.payload);
    }
  }

  /** Writing records and reading the lines gives the records. */
  lemma {:induction false} WriteThenRead(recs: seq<Record>)
    requires EmitAll(recs).Ok? && forall i | 0 <= i < |recs| :: Writable(recs[i])
    ensures ParseAll(EmitAll(recs).value) == Ok(recs)
    decreases |recs|
  {
    hide EmitRecord, Parse, RStrip, Writable;
    if recs != [] {
      var before, rec := recs[..|recs| - 1], recs[|recs| - 1];
      assert before + [rec] == recs;
      WriteThenRead(before);
      assert Writable(rec);
      RecordReadsBack(rec);
      ReadOneMore(EmitAll(before).value, EmitRecord(rec).value, before, rec);
    }
  }

  lemma ReadOneMore(lines: seq<string>, line: string, recs: seq<Record>, rec: Record)
    requires ParseAll(lines) == Ok(recs) && Parse(RStrip(line)) == Ok(rec)
    ensures ParseAll(lines + [line]) == Ok(recs + [rec])
  {
    hide Parse, RStrip;
    assert (lines + [line])[..|lines + [line]| - 1] == lines;
  }

  /** The conditions under which resize is promised to keep a file's meaning: the file ends in a line that is
      not an S3 record, and its runs lie in the 32-bit address space. */
  ghost predicate ReadableFile(lines: seq<string>) {
    && ParseAll(lines).Ok? && lines != []
    && var recs := ParseAll(lines).value;
       Last(recs).Other? && forall i | 0 <= i < |Blocks(recs)| :: InAddressSpace(Blocks(recs)[i])
  }

  /** Every line of the output is a valid record that says what the stream wrote, so the meaning of the file
      as text is kept: its bytes at their addresses, its fillings, and its other lines. */
  lemma FileKeepsMemory(lines: seq<string>, size: int)
    requires 0 < size <= 248 && size % 4 == 0 && ReadableFile(lines) && ResizeText(lines, size).Ok?
    ensures var recs, out := ParseAll(lines).value, ResizeText(lines, size).value;
            && ParseAll(out) == Ok(Run(recs, size).out)
            && Gather(ImageOf, recs) == Gather(ImageOf, Blocks(recs))
            && Gather(ImageOf, ParseAll(out).value) == Gather(FilledImageOf, Blocks(recs))
            && Gather(OtherOf, ParseAll(out).value) == Gather(OtherOf, recs)
            && GoodPieces(ParseAll(out).value, size)
  {
    var recs := ParseAll(lines).value;
    StreamIsRechunk(recs, size);
    OutputIsWritable(lines, size);
    WriteThenRead(Run(recs, size).out);
    ResizeKeepsMemory(recs, size);
    ResizeWritesGoodPieces(recs, size);
  }

  // ---------------------------------------------------------------- two passes over a file

  ghost predicate AllHex(recs: seq<Record>) {
    forall i | 0 <= i < |recs| && recs[i].S3? :: HexCells(recs[i].payload)
  }

  lemma EmitOk(address: nat, cells: seq<Cell>)
    ensures Emit(address, cells).Ok? <==> HexCells(cells)
  {
    if HexCells(cells) {
      BodyDigits(address, cells);
    } else if Hex.AllDigits(Body(address, cells)) {
      BodyDigitsBack(address, cells);
    }
  }

  /** Records can be written exactly when their bytes are hexadecimal. */
  lemma {:induction false} EmitAllOk(recs: seq<Record>)
    ensures EmitAll(recs).Ok? <==> AllHex(recs)
    decreases |recs|
  {
    hide Emit, HexCells;
    if recs != [] {
      var before, rec := recs[..|recs| - 1], recs[|recs| - 1];
      EmitAllOk(before);
      assert AllHex(recs) <==> AllHex(before) && (rec.S3? ==> HexCells(rec.payload)) by {
        assert forall i | 0 <= i < |before| :: before[i] == recs[i];
      }
      if rec.S3? {
        EmitOk(rec.address, rec.payload);
      }
    }
  }

  lemma HexInTwo(cells: seq<Cell>, n: nat)
    requires n <= |cells|
    ensures HexCells(cells) <==> HexCells(cells[..n]) && HexCells(cells[n..])
  {
    if HexCells(cells[..n]) && HexCells(cells[n..]) {
      forall i | 0 <= i < |cells| ensures Hex.IsDigit(cells[i].hi) && Hex.IsDigit(cells[i].lo) {
        assert cells[i] == if i < n then cells[..n][i] else cells[n..][i - n];
      }
    }
  }

  lemma AllHexConcat(x: seq<Record>, y: seq<Record>)
    ensures AllHex(x + y) <==> AllHex(x) && AllHex(y)
  {
    if AllHex(x + y) {
      assert forall i | 0 <= i < |x| :: x[i] == (x + y)[i];
      assert forall i | 0 <= i < |y| :: y[i] == (x + y)[|x| + i];
    }
  }

  lemma {:induction false} ChunksHex(address: nat, cells: seq<Cell>, size: int)
    ensures AllHex(Chunks(address, cells, size)) <==> HexCells(cells)
    decreases |cells|
  {
    hide HexCells, Pad4;
    if cells == [] {
      assert HexCells(cells) by {
        NoCells();
      }
    } else if size <= 0 || |cells| <= size {
      PadKeepsHexBack(cells);
      AllHexOne(S3(address, Pad4(cells)));
    } else {
      var first := S3(address, Pad4(cells[..size]));
      HexInTwo(cells, size);
      PadKeepsHexBack(cells[..size]);
      ChunksHex(address + size, cells[size..], size);
      AllHexConcat([first], Chunks(address + size, cells[size..], size));
      AllHexOne(first);
    }
  }

  lemma NoCells()
    ensures HexCells([])
  {
  }

  lemma AllHexOne(rec: Record)
    ensures AllHex([rec]) <==> (rec.S3? ==> HexCells(rec.payload))
  {
    assert [rec][0] == rec;
  }

  lemma {:induction false} RechunkHex(blocks: seq<Record>, size: int)
    ensures AllHex(Rechunk(blocks, size)) <==> AllHex(blocks)
    decreases |blocks|
  {
    hide HexCells;
    if blocks != [] {
      var before, last := Front(blocks), Last(blocks);
      RechunkHex(before, size);
      AllHexConcat(Rechunk(before, size), RechunkOne(last, size));
      AllHexConcat(before, [last]);
      assert blocks == before + [last];
      AllHexOne(last);
      if last.S3? {
        ChunksHex(last.address, last.payload, size);
      }
    }
  }

  /** So whether resize fails does not depend on the size. */
  lemma ResizeOk(recs: seq<Record>, m: int, n: int)
    requires Unwritten(recs, m) == 0 && Unwritten(recs, n) == 0
    ensures EmitAll(Run(recs, m).out).Ok? <==> EmitAll(Run(recs, n).out).Ok?
  {
    StreamIsRechunk(recs, m);
    StreamIsRechunk(recs, n);
    RechunkHex(Blocks(recs), m);
    RechunkHex(Blocks(recs), n);
    EmitAllOk(Run(recs, m).out);
    EmitAllOk(Run(recs, n).out);
  }

  lemma {:induction false} TidyStaysInSpace(blocks: seq<Record>)
    requires forall i | 0 <= i < |blocks| :: InAddressSpace(blocks[i])
    ensures forall i | 0 <= i < |Tidy(blocks)| :: InAddressSpace(Tidy(blocks)[i])
    decreases |blocks|
  {
    if blocks != [] {
      var tidy, last := Tidy(Front(blocks)), Last(blocks);
      TidyStaysInSpace(Front(blocks));
      assert InAddressSpace(last);
      if Joins(tidy, last) {
        assert |Last(AddBlock(tidy, last)).payload| == |Last(tidy).payload| + |last.payload|;
      }
    }
  }

  /** What a second pass writes can be read back. */
  lemma SecondPassWritable(lines: seq<string>, m: int, n: int)
    requires 0 < m <= 248 && m % 4 == 0 && 0 < n <= 248 && n % 4 == 0
    requires ReadableFile(lines) && WholeRuns(Blocks(ParseAll(lines).value)) && ResizeText(lines, m).Ok?
    ensures var out := Run(Run(ParseAll(lines).value, m).out, n).out; forall i | 0 <= i < |out| :: Writable(out[i])
  {
    var recs := ParseAll(lines).value;
    var middle := Run(recs, m).out;
    FileKeepsMemory(lines, m);
    StreamIsRechunk(recs, m);
    BlocksOfRechunk(Blocks(recs), m);
    TidyStaysInSpace(Blocks(recs));
    EndsInOther(recs, m);
    StreamIsRechunk(middle, n);
    OutputIsWritable(ResizeText(lines, m).value, n);
  }

  lemma EndsInOther(recs: seq<Record>, size: int)
    requires recs != [] && Last(recs).Other?
    ensures var out := Run(recs, size).out; out != [] && Last(out).Other?
  {
  }

  lemma {:induction false} WritingIsInjective(x: seq<Record>, y: seq<Record>)
    requires EmitAll(x).Ok? && EmitAll(x) == EmitAll(y)
    requires (forall i | 0 <= i < |x| :: Writable(x[i])) && forall i | 0 <= i < |y| :: Writable(y[i])
    ensures x == y
  {
    WriteThenRead(x);
    WriteThenRead(y);
  }

  /** Two passes over a file of text give what the second one alone gives, for all legal sizes, exactly when the joints
      are clean. */
  lemma FileResizeComposes(lines: seq<string>, m: int, n: int)
    requires 0 < m <= 248 && m % 4 == 0 && 0 < n <= 248 && n % 4 == 0
    requires ReadableFile(lines) && WholeRuns(Blocks(ParseAll(lines).value)) && ResizeText(lines, m).Ok?
    ensures ResizeText(ResizeText(lines, m).value, n) == ResizeText(lines, n)
            <==> CleanJoins(Blocks(ParseAll(lines).value), n)
  {
    hide EmitAll, Blocks, CleanJoins, WholeRuns, Writable;
    var recs := ParseAll(lines).value;
    FileKeepsMemory(lines, m);
    ResizeComposes(recs, m, n);
    StreamIsRechunk(recs, m);
    StreamIsRechunk(recs, n);
    ResizeOk(recs, m, n);
    SecondPassWritable(lines, m, n);
    OutputIsWritable(lines, n);
    var x, y := Run(Run(recs, m).out, n).out, Run(recs, n).out;
    if EmitAll(x) == EmitAll(y) {
      WritingIsInjective(x, y);
    }
  }

  // ---------------------------------------------------------------- the CRC of a file

  lemma PayloadAgrees(record: string)
    requires IsS3(record) && EvenPayload(record)
    ensures CellsOf(PayloadText(record)) == PayloadCells(RStrip(record))
  {
    RStripKeepsPrefix(record);
    var line := RStrip(record);
    if |line| >= 14 {
      assert PayloadText(record) == line[12..|line| - 2];
    }
  }

  /** calculate_crc32 and resize read the same bytes from a line. */
  lemma {:induction false} MessageOfLines(lines: seq<string>)
    requires ParseAll(lines).Ok? && forall i | 0 <= i < |lines| :: EvenPayload(lines[i])
    ensures LinesMessage(lines) == Message(ParseAll(lines).value)
    decreases |lines|
  {
    if lines != [] {
      var record := lines[|lines| - 1];
      assert EvenPayload(record);
      MessageOfLines(lines[..|lines| - 1]);
      RStripKeepsPrefix(record);
      if IsS3(record) {
        PayloadAgrees(record);
      }
    }
  }

  lemma EvenLine(line: string, count: nat)
    requires RStrip(line) == line && |line| == 14 + 2 * count
    ensures EvenPayload(line)
  {
  }

  lemma EmittedPayloadIsEven(rec: Record)
    requires EmitRecord(rec).Ok? && Writable(rec)
    ensures EvenPayload(EmitRecord(rec).value)
  {
    if rec.S3? {
      BodyDigitsBack(rec.address, rec.payload);
      var line, k := EmitLayout(rec.address, rec.payload);
      EmitReadsBack(rec.address, rec.payload);
      EvenLine(line, |rec.payload|);
    }
  }

  lemma {:induction false} EmittedPayloadsAreEven(recs: seq<Record>)
    requires EmitAll(recs).Ok? && forall i | 0 <= i < |recs| :: Writable(recs[i])
    ensures forall i | 0 <= i < |recs| :: EvenPayload(EmitAll(recs).value[i])
    decreases |recs|
  {
    if recs != [] {
      EmittedPayloadsAreEven(recs[..|recs| - 1]);
      EmittedPayloadIsEven(recs[|recs| - 1]);
    }
  }

  /** Re-chunking keeps the CRC: for every legal size, when only the last record of each contiguous run may
      have a length that four does not divide. */
  lemma FileKeepsCrc(lines: seq<string>, size: int)
    requires 0 < size <= 248 && size % 4 == 0 && ReadableFile(lines) && ResizeText(lines, size).Ok?
    requires AlignedInside(ParseAll(lines).value) && forall i | 0 <= i < |lines| :: EvenPayload(lines[i])
    ensures var out := ResizeText(lines, size).value;
            && (forall i | 0 <= i < |out| :: EvenPayload(out[i]))
            && Stm32Crc(LinesMessage(out)) == Stm32Crc(LinesMessage(lines))
  {
    var recs := ParseAll(lines).value;
    FileKeepsMemory(lines, size);
    OutputIsWritable(lines, size);
    EmittedPayloadsAreEven(Run(recs, size).out);
    ResizeKeepsMessage(recs, size);
    MessageOfLines(lines);
    MessageOfLines(ResizeText(lines, size).value);
  }
}
