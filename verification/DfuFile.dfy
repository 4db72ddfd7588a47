/** From build.py to the charger case: the file that build_dfu writes, resized, sent and stored, is the image
    whose CRC the header carries. */
module DfuFile {
  import opened Results
  import opened Sequences
  import opened SRecord
  import opened Resize
  import opened ResizeMeaning
  import opened ResizeCompose
  import opened ResizeCrc
  import opened ResizeFiles
  import opened ImageCrc
  import DfuSender
  import Hex

  // ---------------------------------------------------------------- parts of a file

  lemma {:induction false} ParseConcat(x: seq<string>, y: seq<string>)
    requires ParseAll(x).Ok? && ParseAll(y).Ok?
    ensures ParseAll(x + y) == Ok(ParseAll(x).value + ParseAll(y).value)
    decreases |y|
  {
    if y == [] {
      assert x + y == x && ParseAll(x).value + ParseAll(y).value == ParseAll(x).value;
    } else {
      assert (x + y)[..|x + y| - 1] == x + y[..|y| - 1];
      ParseConcat(x, y[..|y| - 1]);
      var px, py, last := ParseAll(x).value, ParseAll(y[..|y| - 1]).value, ParseAll(y).value[|y| - 1];
      assert px + py + [last] == px + (py + [last]);
    }
  }

  lemma {:induction false} EmitConcat(x: seq<Record>, y: seq<Record>)
    requires EmitAll(x + y).Ok?
    ensures EmitAll(x).Ok? && EmitAll(y).Ok? && EmitAll(x + y).value == EmitAll(x).value + EmitAll(y).value
    decreases |y|
  {
    if y == [] {
      assert x + y == x;
    } else {
      assert (x + y)[..|x + y| - 1] == x + y[..|y| - 1];
      EmitConcat(x, y[..|y| - 1]);
    }
  }

  lemma {:induction false} RechunkConcat(x: seq<Record>, y: seq<Record>, size: int)
    ensures Rechunk(x + y, size) == Rechunk(x, size) + Rechunk(y, size)
    decreases |y|
  {
    hide RechunkOne;
    if y == [] {
      assert x + y == x;
    } else {
      assert Front(x + y) == x + Front(y) && Last(x + y) == Last(y);
      RechunkConcat(x, Front(y), size);
      Regroup(Rechunk(x, size), Rechunk(Front(y), size), RechunkOne(Last(y), size));
    }
  }

  lemma AddBlockBehind(x: seq<Record>, y: seq<Record>, rec: Record)
    requires y != []
    ensures AddBlock(x + y, rec) == x + AddBlock(y, rec)
  {
    assert Front(x + y) == x + Front(y) && Last(x + y) == Last(y);
  }

  lemma {:induction false} AddAllBehind(x: seq<Record>, y: seq<Record>, recs: seq<Record>)
    requires y != []
    ensures AddAll(x + y, recs) == x + AddAll(y, recs) && AddAll(y, recs) != []
    decreases |recs|
  {
    if recs != [] {
      AddAllBehind(x, y, Front(recs));
      AddBlockBehind(x, AddAll(y, Front(recs)), Last(recs));
    }
  }

  /** Runs do not reach across a place where the addresses do not continue. */
  lemma BlocksApart(x: seq<Record>, y: seq<Record>)
    requires y != [] && (x == [] || !Abuts(Last(Blocks(x)), y[0]))
    ensures Blocks(x + y) == Blocks(x) + Blocks(y)
  {
    var first, others := [y[0]], y[1..];
    assert y == first + others;
    BlocksAsAdded(x, y);
    BlocksAsAdded(first, others);
    AddAllConcat(Blocks(x), first, others);
    AddOne(Blocks(x), y[0]);
    BlocksOfOne(y[0]);
    AddAllBehind(Blocks(x), first, others);
  }

  lemma BlocksAsAdded(x: seq<Record>, y: seq<Record>)
    ensures Blocks(x + y) == AddAll(Blocks(x), y)
  {
    AddAllIsBlocks(x + y);
    AddAllConcat([], x, y);
    AddAllIsBlocks(x);
  }

  lemma BlocksOfOne(rec: Record)
    ensures Blocks([rec]) == [rec]
  {
    assert Front([rec]) == [];
  }

  function Pieces(recs: seq<Record>, size: int): seq<Record> {
    Rechunk(Blocks(recs), size)
  }

  lemma PiecesOfOther(text: string, size: int)
    ensures Pieces([Other(text)], size) == [Other(text)]
  {
    BlocksOfOne(Other(text));
    assert Front([Other(text)]) == [];
    assert Rechunk([Other(text)], size) == Rechunk([], size) + RechunkOne(Other(text), size);
  }

  lemma PiecesApart(x: seq<Record>, y: seq<Record>, size: int)
    requires y != [] && (x == [] || !Abuts(Last(Blocks(x)), y[0]))
    ensures Pieces(x + y, size) == Pieces(x, size) + Pieces(y, size)
  {
    BlocksApart(x, y);
    RechunkConcat(Blocks(x), Blocks(y), size);
  }

  /** The two images stay apart: resize works on each half as if it were alone. */
  lemma HalvesStayApart(header: string, a: seq<Record>, b: seq<Record>, tail: string, size: int)
    requires a != [] && b != [] && a[0].S3? && b[0].S3? && !Abuts(Last(Blocks(a)), b[0])
    ensures Run([Other(header)] + a + b + [Other(tail)], size).out
            == [Other(header)] + Pieces(a, size) + Pieces(b, size) + [Other(tail)]
  {
    var h, t := [Other(header)], [Other(tail)];
    assert Front(h) == [];
    PiecesOfOther(header, size);
    PiecesOfOther(tail, size);
    PiecesApart(h, a, size);
    BlocksApart(h, a);
    assert Last(Blocks(h + a)) == Last(Blocks(a));
    PiecesApart(h + a, b, size);
    BlocksApart(h + a, b);
    PiecesApart(h + a + b, t, size);
    assert Last(h + a + b + t).Other?;
    StreamIsRechunk(h + a + b + t, size);
  }

  // ---------------------------------------------------------------- the CRC of each half

  /** The S3 lines of one image. */
  predicate ImageLines(lines: seq<string>) {
    lines != [] && forall i | 0 <= i < |lines| :: IsS3(lines[i]) && EvenPayload(lines[i])
  }

  lemma {:induction false} ParsedImage(lines: seq<string>)
    requires ParseAll(lines).Ok? && forall i | 0 <= i < |lines| :: IsS3(lines[i])
    ensures forall i | 0 <= i < |lines| :: ParseAll(lines).value[i].S3?
    decreases |lines|
  {
    if lines != [] {
      ParsedImage(lines[..|lines| - 1]);
      RStripKeepsPrefix(lines[|lines| - 1]);
    }
  }

  lemma PiecesKeepMessage(recs: seq<Record>, size: int)
    requires size % 4 == 0 && AlignedInside(recs)
    ensures Message(Pieces(recs, size)) == Message(recs)
  {
    RechunkMessage(Blocks(recs), size);
    BlocksMessage(recs);
  }

  /** Emitted pieces between two lines that are not records: the CRC sees only the pieces. */
  lemma FramedMessage(header: string, pieces: seq<Record>, tail: string)
    requires EmitAll(pieces).Ok? && !IsS3(header) && !IsS3(tail)
    requires forall i | 0 <= i < |pieces| :: Writable(pieces[i])
    ensures LinesMessage([header] + EmitAll(pieces).value + [tail]) == Message(pieces)
  {
    var lines := EmitAll(pieces).value;
    WriteThenRead(pieces);
    EmittedPayloadsAreEven(pieces);
    MessageOfLines(lines);
    assert Front([header] + lines + [tail]) == [header] + lines;
    HeaderMessage(header, lines);
  }

  lemma {:induction false} HeaderMessage(header: string, lines: seq<string>)
    requires !IsS3(header)
    ensures LinesMessage([header] + lines) == LinesMessage(lines)
    decreases |lines|
  {
    if lines == [] {
      assert Front([header]) == [];
      assert [header] + lines == [header];
    } else {
      assert Front([header] + lines) == [header] + Front(lines);
      HeaderMessage(header, Front(lines));
    }
  }

  // ---------------------------------------------------------------- the S7 record stays the only one

  lemma {:induction false} DigitsHoldNoS(s: string)
    requires Hex.AllDigits(s)
    ensures !DfuSender.Contains(s, "S7")
  {
    if s != "" {
      DigitsHoldNoS(s[1..]);
    }
  }

  lemma RecordHoldsNoS7(rec: Record)
    requires rec.S3? && EmitRecord(rec).Ok?
    ensures !DfuSender.Contains(EmitRecord(rec).value, "S7")
  {
    hide PairSum, Body, Hex.Format, Hex.Value, Text;
    var body := Body(rec.address, rec.payload);
    var line := EmitRecord(rec).value;
    var digits := body + Hex.Format(255 - PairSum(body) % 256, 2);
    DigitsConcat(body, Hex.Format(255 - PairSum(body) % 256, 2));
    DigitsHoldNoS(digits);
    assert line == "S3" + digits;
    assert line[1..] == "3" + digits && line[1..][1..] == digits;
    assert "S7"[1..] == "7";
    assert !DfuSender.StartsWith(line[1..], "7");
  }

  lemma {:induction false} RecordsHoldNoS7(recs: seq<Record>)
    requires EmitAll(recs).Ok? && forall i | 0 <= i < |recs| :: recs[i].S3?
    ensures forall i | 0 <= i < |recs| :: !DfuSender.Contains(EmitAll(recs).value[i], "S7")
    decreases |recs|
  {
    if recs != [] {
      RecordsHoldNoS7(recs[..|recs| - 1]);
      RecordHoldsNoS7(recs[|recs| - 1]);
    }
  }

  lemma {:induction false} ChunksAreS3(address: nat, cells: seq<Cell>, size: int)
    ensures forall i | 0 <= i < |Chunks(address, cells, size)| :: Chunks(address, cells, size)[i].S3?
    decreases |cells|
  {
    if cells != [] && 0 < size < |cells| {
      ChunksAreS3(address + size, cells[size..], size);
    }
  }

  lemma {:induction false} BlocksAreS3(recs: seq<Record>)
    requires forall i | 0 <= i < |recs| :: recs[i].S3?
    ensures forall i | 0 <= i < |Blocks(recs)| :: Blocks(recs)[i].S3?
    decreases |recs|
  {
    if recs != [] {
      BlocksAreS3(Front(recs));
      assert Last(recs).S3?;
    }
  }

  lemma {:induction false} RechunkAreS3(blocks: seq<Record>, size: int)
    requires forall i | 0 <= i < |blocks| :: blocks[i].S3?
    ensures forall i | 0 <= i < |Rechunk(blocks, size)| :: Rechunk(blocks, size)[i].S3?
    decreases |blocks|
  {
    if blocks != [] {
      RechunkAreS3(Front(blocks), size);
      assert Last(blocks).S3?;
      ChunksAreS3(Last(blocks).address, Last(blocks).payload, size);
    }
  }

  lemma PiecesAreS3(recs: seq<Record>, size: int)
    requires forall i | 0 <= i < |recs| :: recs[i].S3?
    ensures forall i | 0 <= i < |Pieces(recs, size)| :: Pieces(recs, size)[i].S3?
  {
    BlocksAreS3(recs);
    RechunkAreS3(Blocks(recs), size);
  }

  // ---------------------------------------------------------------- the whole way

  /** What build_dfu writes: header, both images, S7 record. Only the tail mentions S7. */
  predicate DfuLines(header: string, a: seq<string>, b: seq<string>, tail: string) {
    && ImageLines(a) && ImageLines(b) && !IsS3(header) && !IsS3(tail)
    && !DfuSender.Contains(RStrip(header), "S7") && DfuSender.Contains(RStrip(tail), "S7")
  }

  /** Both images can be read, and neither the last bytes of A continue in B nor a record breaks a word. */
  ghost predicate SoundImages(a: seq<string>, b: seq<string>) {
    && ParseAll(a).Ok? && ParseAll(b).Ok? && a != [] && b != []
    && AlignedInside(ParseAll(a).value) && AlignedInside(ParseAll(b).value)
    && !Abuts(Last(Blocks(ParseAll(a).value)), ParseAll(b).value[0])
  }

  lemma ReadFile(header: string, a: seq<string>, b: seq<string>, tail: string)
    requires !IsS3(header) && !IsS3(tail) && ParseAll(a).Ok? && ParseAll(b).Ok?
    ensures ParseAll([header] + a + b + [tail])
            == Ok([Other(RStrip(header))] + ParseAll(a).value + ParseAll(b).value + [Other(RStrip(tail))])
  {
    ReadOther(header);
    ReadOther(tail);
    ParseConcat([header], a);
    ParseConcat([header] + a, b);
    ParseConcat([header] + a + b, [tail]);
  }

  lemma ReadOther(line: string)
    requires !IsS3(line)
    ensures ParseAll([line]) == Ok([Other(RStrip(line))])
  {
    RStripKeepsPrefix(line);
    assert [line][..|[line]| - 1] == [];
    assert [] + [Other(RStrip(line))] == [Other(RStrip(line))];
  }

  /** The lines that resize writes for one image. */
  function SentImage(image: seq<string>, size: int): seq<string> {
    if ParseAll(image).Ok? && EmitAll(Pieces(ParseAll(image).value, size)).Ok?
    then EmitAll(Pieces(ParseAll(image).value, size)).value else []
  }

  /** resize keeps the four parts of the file apart. */
  lemma ResizedParts(header: string, a: seq<string>, b: seq<string>, tail: string, size: int)
    requires DfuLines(header, a, b, tail) && SoundImages(a, b)
    requires ResizeText([header] + a + b + [tail], size).Ok?
    ensures ResizeText([header] + a + b + [tail], size).value
            == DfuSender.File(RStrip(header), SentImage(a, size), SentImage(b, size), RStrip(tail))
    ensures EmitAll(Pieces(ParseAll(a).value, size)).Ok? && EmitAll(Pieces(ParseAll(b).value, size)).Ok?
  {
    var ra, rb := ParseAll(a).value, ParseAll(b).value;
    var h, t := [Other(RStrip(header))], [Other(RStrip(tail))];
    ReadFile(header, a, b, tail);
    ParsedImage(a);
    ParsedImage(b);
    HalvesStayApart(RStrip(header), ra, rb, RStrip(tail), size);
    EmitConcat(h + Pieces(ra, size) + Pieces(rb, size), t);
    EmitConcat(h + Pieces(ra, size), Pieces(rb, size));
    EmitConcat(h, Pieces(ra, size));
    EmitOther(RStrip(header));
    EmitOther(RStrip(tail));
  }

  lemma EmitOther(text: string)
    ensures EmitAll([Other(text)]) == Ok([text])
  {
    assert [Other(text)][..|[Other(text)]| - 1] == [];
    assert [] + [text] == [text];
  }

  lemma PiecesWritable(header: string, a: seq<string>, b: seq<string>, tail: string, size: int)
    requires 0 < size <= 248 && size % 4 == 0 && DfuLines(header, a, b, tail) && SoundImages(a, b)
    requires ReadableFile([header] + a + b + [tail])
    ensures forall i | 0 <= i < |Pieces(ParseAll(a).value, size)| :: Writable(Pieces(ParseAll(a).value, size)[i])
    ensures forall i | 0 <= i < |Pieces(ParseAll(b).value, size)| :: Writable(Pieces(ParseAll(b).value, size)[i])
  {
    var lines := [header] + a + b + [tail];
    var ra, rb := ParseAll(a).value, ParseAll(b).value;
    var pa, pb := Pieces(ra, size), Pieces(rb, size);
    ReadFile(header, a, b, tail);
    StreamIsRechunk(ParseAll(lines).value, size);
    OutputIsWritable(lines, size);
    ParsedImage(a);
    ParsedImage(b);
    HalvesStayApart(RStrip(header), ra, rb, RStrip(tail), size);
    PartsWritable(Other(RStrip(header)), pa, pb, Other(RStrip(tail)));
  }

  lemma {:induction false} PartsWritable(h: Record, pa: seq<Record>, pb: seq<Record>, t: Record)
    requires var out := [h] + pa + pb + [t]; forall i | 0 <= i < |out| :: Writable(out[i])
    ensures forall i | 0 <= i < |pa| :: Writable(pa[i])
    ensures forall i | 0 <= i < |pb| :: Writable(pb[i])
  {
    var out := [h] + pa + pb + [t];
    assert forall i | 0 <= i < |pa| :: pa[i] == out[1 + i];
    assert forall i | 0 <= i < |pb| :: pb[i] == out[1 + |pa| + i];
  }

  /** The sender's demands on the file hold of what resize returns. */
  lemma SentFileEndsWithS7(header: string, a: seq<string>, b: seq<string>, tail: string, size: int)
    requires DfuLines(header, a, b, tail) && SoundImages(a, b)
    requires EmitAll(Pieces(ParseAll(a).value, size)).Ok? && EmitAll(Pieces(ParseAll(b).value, size)).Ok?
    ensures DfuSender.GoodFile(DfuSender.File(RStrip(header), SentImage(a, size), SentImage(b, size), RStrip(tail)))
  {
    hide DfuSender.Contains, Pieces, ParseAll;
    ParsedImage(a);
    ParsedImage(b);
    PiecesAreS3(ParseAll(a).value, size);
    PiecesAreS3(ParseAll(b).value, size);
    RecordsHoldNoS7(Pieces(ParseAll(a).value, size));
    RecordsHoldNoS7(Pieces(ParseAll(b).value, size));
  }

  /** The frame and one half have the CRC of the image as build.py read it. */
  lemma SentImageCrc(header: string, image: seq<string>, tail: string, size: int)
    requires size % 4 == 0 && ImageLines(image) && ParseAll(image).Ok? && AlignedInside(ParseAll(image).value)
    requires !IsS3(header) && !IsS3(tail) && EmitAll(Pieces(ParseAll(image).value, size)).Ok?
    requires forall i | 0 <= i < |Pieces(ParseAll(image).value, size)| :: Writable(Pieces(ParseAll(image).value, size)[i])
    ensures Stm32Crc(LinesMessage([RStrip(header)] + SentImage(image, size) + [RStrip(tail)]))
            == Stm32Crc(LinesMessage(image))
  {
    RStripKeepsPrefix(header);
    RStripKeepsPrefix(tail);
    FramedMessage(RStrip(header), Pieces(ParseAll(image).value, size), RStrip(tail));
    PiecesKeepMessage(ParseAll(image).value, size);
    MessageOfLines(image);
  }

  /** End to end: after a completed run of the sender, the receiver has stored every record of a file whose CRC is
      the one that build.py wrote into the header for the image that was not running. */
  lemma {:induction false} DeliveredImageHasHeaderCrc(header: string, a: seq<string>, b: seq<string>, tail: string, size: int,
                                   events: seq<DfuSender.Event>)
    requires 0 < size <= 248 && size % 4 == 0 && DfuLines(header, a, b, tail) && SoundImages(a, b)
    requires ReadableFile([header] + a + b + [tail]) && ResizeText([header] + a + b + [tail], size).Ok?
    requires |SentImage(a, size)| <= |SentImage(b, size)| <= |SentImage(a, size)| + 1
    requires var file := ResizeText([header] + a + b + [tail], size).value;
             && DfuSender.PlausibleRun(file, events) && DfuSender.PromptRun(file, events)
             && DfuSender.RunWorld(DfuSender.StartWorld(file), events).completed
    ensures var file := ResizeText([header] + a + b + [tail], size).value;
            var w := DfuSender.RunWorld(DfuSender.StartWorld(file), events);
            && Stm32Crc(LinesMessage(w.vars.lines)) == Stm32Crc(LinesMessage(if w.runningA then b else a))
            && forall k | 0 <= k < |w.vars.lines| :: k in w.stored
  {
    hide LinesMessage, Stm32Crc, DfuSender.RunWorld, SentImage, ReadableFile, Pieces, ParseAll, EmitAll, DfuSender.GoodFile;
    ResizedParts(header, a, b, tail, size);
    SentFileEndsWithS7(header, a, b, tail, size);
    PiecesWritable(header, a, b, tail, size);
    var sa, sb := SentImage(a, size), SentImage(b, size);
    SentImageCrc(header, a, tail, size);
    SentImageCrc(header, b, tail, size);
    DfuSender.CompletedRunsDeliver(RStrip(header), sa, sb, RStrip(tail), events);
  }
}
