/** resize of rdp/charger_case_comms_stm32/dfu.py: re-chunks the payload of address-tagged records. */
module Resize {
  import opened Results
  import opened SRecord
  import Hex

  // ---------------------------------------------------------------- the stream, record by record

  /** The loop's variables: lines written so far, next address, address of the stored payload, stored payload. */
  datatype Stream = Stream(out: seq<Record>, address: nat, start: nat, pending: seq<Cell>)

  const EMPTY := Stream([], 0, 0, [])

  function Flush(st: Stream): Stream {
    if st.pending == [] then st
    else st.(out := st.out + [S3(st.start, Pad4(st.pending))], pending := [])
  }

  /** One byte of the inner loop. */
  function Push(st: Stream, cell: Cell, size: int): Stream {
    var grown := st.(pending := st.pending + [cell], address := st.address + 1);
    if |grown.pending| == size then Flush(grown).(start := grown.address) else grown
  }

  function Absorb(st: Stream, cells: seq<Cell>, size: int): Stream {
    if cells == [] then st else Push(Absorb(st, cells[..|cells| - 1], size), cells[|cells| - 1], size)
  }

  /** Where the stored payload and the next address stand once a record at `address` is about to be read. */
  function Seek(st: Stream, address: nat): Stream {
    if st.address == 0 then st.(address := address, start := address)
    else if st.address != address then Flush(st).(address := address, start := address)
    else st
  }

  function Step(st: Stream, rec: Record, size: int): Stream {
    match rec
    case S3(address, payload) => Absorb(Seek(st, address), payload, size)
    case Other(_) =>
      var flushed := if st.pending == [] then st else Flush(st).(address := 0);
      flushed.(out := flushed.out + [rec])
  }

  function Run(recs: seq<Record>, size: int): Stream {
    if recs == [] then EMPTY else Step(Run(recs[..|recs| - 1], size), recs[|recs| - 1], size)
  }

  // ---------------------------------------------------------------- the same on text

  function ParseAll(lines: seq<string>): (r: Result<seq<Record>>)
    ensures r.Ok? ==> |r.value| == |lines|
  {
    if lines == [] then Ok([])
    else
      match (ParseAll(lines[..|lines| - 1]), Parse(RStrip(lines[|lines| - 1])))
      case (Ok(recs), Ok(rec)) => Ok(recs + [rec])
      case _ => ValueError
  }

  function EmitRecord(rec: Record): Result<string> {
    match rec
    case S3(address, payload) => Emit(address, payload)
    case Other(text) => Ok(text)
  }

  function EmitAll(recs: seq<Record>): (r: Result<seq<string>>)
    ensures r.Ok? ==> |r.value| == |recs|
  {
    if recs == [] then Ok([])
    else
      match (EmitAll(recs[..|recs| - 1]), EmitRecord(recs[|recs| - 1]))
      case (Ok(lines), Ok(line)) => Ok(lines + [line])
      case _ => ValueError
  }

  function ResizeText(lines: seq<string>, size: int): Result<seq<string>> {
    match ParseAll(lines)
    case Ok(recs) => EmitAll(Run(recs, size).out)
    case ValueError => ValueError
  }

  lemma {:induction false} AbsorbGrows(st: Stream, cells: seq<Cell>, size: int)
    ensures st.out <= Absorb(st, cells, size).out
  {
    if cells != [] {
      AbsorbGrows(st, cells[..|cells| - 1], size);
    }
  }

  lemma StepGrows(st: Stream, rec: Record, size: int)
    ensures st.out <= Step(st, rec, size).out
  {
    if rec.S3? {
      AbsorbGrows(Seek(st, rec.address), rec.payload, size);
    }
  }

  /** Lines are only ever appended, and an error in an earlier part is an error of the whole. */
  lemma {:induction false} RunGrows(recs: seq<Record>, n: nat, size: int)
    requires n <= |recs|
    ensures Run(recs[..n], size).out <= Run(recs, size).out
    decreases |recs|
  {
    if n < |recs| {
      var front := recs[..|recs| - 1];
      assert front[..n] == recs[..n];
      RunGrows(front, n, size);
      StepGrows(Run(front, size), recs[|recs| - 1], size);
    } else {
      assert recs[..n] == recs;
    }
  }

  lemma {:induction false} EmitErrorSpreads(recs: seq<Record>, more: seq<Record>)
    requires recs <= more && EmitAll(recs).ValueError?
    ensures EmitAll(more).ValueError?
    decreases |more|
  {
    if |recs| < |more| {
      EmitErrorSpreads(recs, more[..|more| - 1]);
    } else {
      assert recs == more;
    }
  }

  lemma {:induction false} ParseErrorSpreads(lines: seq<string>, n: nat)
    requires n < |lines|
    requires ParseAll(lines[..n]).ValueError? || Parse(RStrip(lines[n])).ValueError?
    ensures ParseAll(lines).ValueError?
    decreases |lines|
  {
    var front := lines[..|lines| - 1];
    if n < |front| {
      assert front[..n] == lines[..n];
      ParseErrorSpreads(front, n);
    }
  }

  lemma {:induction false} ParsePrefix(lines: seq<string>, n: nat)
    requires n <= |lines| && ParseAll(lines).Ok?
    ensures ParseAll(lines[..n]) == Ok(ParseAll(lines).value[..n])
    decreases |lines|
  {
    if n < |lines| {
      var front := lines[..|lines| - 1];
      assert front[..n] == lines[..n];
      ParsePrefix(front, n);
      assert ParseAll(front).value[..n] == ParseAll(lines).value[..n];
    } else {
      assert lines[..n] == lines && ParseAll(lines).value[..n] == ParseAll(lines).value;
    }
  }

  /** A record that cannot be written while some prefix is being read fails the whole call. */
  lemma FailsEarly(lines: seq<string>, n: nat, recs: seq<Record>, partial: seq<Record>, size: int)
    requires n < |lines| && ParseAll(lines[..n + 1]) == Ok(recs)
    requires partial <= Run(recs, size).out && EmitAll(partial).ValueError?
    ensures ResizeText(lines, size).ValueError?
  {
    if ParseAll(lines).Ok? {
      var all := ParseAll(lines).value;
      ParsePrefix(lines, n + 1);
      RunGrows(all, n + 1, size);
      EmitErrorSpreads(partial, Run(all, size).out);
    }
  }

  // ---------------------------------------------------------------- resize itself

  /** The variables of resize hold the stream `st`. */
  ghost predicate Holds(st: Stream, allLines: seq<string>, address: nat, start: nat, payload: string, count: nat) {
    && EmitAll(st.out) == Ok(allLines)
    && address == st.address && start == st.start
    && payload == Text(st.pending) && count == |st.pending|
  }

  lemma EmitAllAppend(recs: seq<Record>, rec: Record)
    ensures EmitAll(recs + [rec]) ==
            if EmitAll(recs).Ok? && EmitRecord(rec).Ok? then Ok(EmitAll(recs).value + [EmitRecord(rec).value])
            else ValueError
  {
    assert (recs + [rec])[..|recs + [rec]| - 1] == recs;
  }

  /** `all_lines.append(make_s3(start_address, payload, payload_count))`. */
  method Output(ghost st: Stream, allLines: seq<string>, address: nat, start: nat, payload: string, count: nat)
    returns (r: Result<seq<string>>)
    requires Holds(st, allLines, address, start, payload, count) && st.pending != []
    ensures r == EmitAll(Flush(st).out)
  {
    TextRoundTrip(st.pending);
    EmitAllAppend(st.out, S3(st.start, Pad4(st.pending)));
    var line := MakeS3(start, payload, count);
    if line.ValueError? {
      return ValueError;
    }
    r := Ok(allLines + [line.value]);
  }

  /** One round of the inner loop of resize. */
  method PushPair(ghost st: Stream, lines: seq<string>, address: nat, start: nat, payload: string, count: nat,
                  pair: string, size: int)
    returns (lines': seq<string>, address': nat, start': nat, payload': string, count': nat, ok: bool)
    requires Holds(st, lines, address, start, payload, count) && |pair| == 2
    ensures ok ==> Holds(Push(st, Cell(pair[0], pair[1]), size), lines', address', start', payload', count')
    ensures !ok ==> EmitAll(Push(st, Cell(pair[0], pair[1]), size).out).ValueError?
  {
    ghost var cell := Cell(pair[0], pair[1]);
    ghost var grown := st.(pending := st.pending + [cell], address := st.address + 1);
    TextConcat(st.pending, [cell]);
    assert Text([cell]) == pair;
    lines', start', ok := lines, start, true;
    payload' := payload + pair;
    count' := count + 1;
    address' := address + 1;
    if count' == size {
      var appended := Output(grown, lines', address', start', payload', count');
      if appended.ValueError? {
        ok := false;
        return;
      }
      lines', count', payload', start' := appended.value, 0, "", address';
    }
  }

  /** The inner loop of resize, over the payload of one stripped line. */
  method AbsorbLine(ghost st: Stream, lines: seq<string>, address: nat, start: nat, payload: string, count: nat,
                    line: string, size: int)
    returns (lines': seq<string>, address': nat, start': nat, payload': string, count': nat, ok: bool)
    requires Holds(st, lines, address, start, payload, count)
    ensures ok ==> Holds(Absorb(st, PayloadCells(line), size), lines', address', start', payload', count')
    ensures !ok ==> EmitAll(Absorb(st, PayloadCells(line), size).out).ValueError?
  {
    lines', address', start', payload', count', ok := lines, address, start, payload, count, true;
    ghost var cells := PayloadCells(line);
    CellsOfLine(line);
    AbsorbNothing(st, cells, size);
    hide PayloadCells, Absorb, Push, Holds, EmitAll;
    ghost var k := 0;
    ghost var now := st;
    var n := 12;
    while n < |line| - 2
      invariant k <= |cells| && n == 12 + 2 * k
      invariant n < |line| - 2 <==> k < |cells|
      invariant now == Absorb(st, cells[..k], size)
      invariant Holds(now, lines', address', start', payload', count')
    {
      AbsorbNext(st, cells, k, size);
      var pair := line[n..n + 2];
      assert cells[k] == Cell(pair[0], pair[1]);
      ghost var next := Push(now, cells[k], size);
      lines', address', start', payload', count', ok :=
        PushPair(now, lines', address', start', payload', count', pair, size);
      if !ok {
        AbsorbErrorSpreads(st, cells, k + 1, size);
        return;
      }
      now, k, n := next, k + 1, n + 2;
    }
    assert cells[..k] == cells;
  }

  /** The pairs that the inner loop visits. */
  lemma CellsOfLine(line: string)
    ensures forall k: nat :: 12 + 2 * k < |line| - 2 <==> k < |PayloadCells(line)|
    ensures forall k | 0 <= k < |PayloadCells(line)| :: PayloadCells(line)[k] == Cell(line[12 + 2 * k], line[13 + 2 * k])
  {
  }

  lemma AbsorbNothing(st: Stream, cells: seq<Cell>, size: int)
    ensures Absorb(st, cells[..0], size) == st
  {
  }

  lemma AbsorbNext(st: Stream, cells: seq<Cell>, k: nat, size: int)
    requires k < |cells|
    ensures Absorb(st, cells[..k + 1], size) == Push(Absorb(st, cells[..k], size), cells[k], size)
  {
    assert cells[..k + 1][..k] == cells[..k];
  }

  lemma AbsorbErrorSpreads(st: Stream, cells: seq<Cell>, k: nat, size: int)
    requires k <= |cells| && EmitAll(Absorb(st, cells[..k], size).out).ValueError?
    ensures EmitAll(Absorb(st, cells, size).out).ValueError?
  {
    AbsorbPrefixGrows(st, cells, k, size);
    EmitErrorSpreads(Absorb(st, cells[..k], size).out, Absorb(st, cells, size).out);
  }

  lemma {:induction false} AbsorbPrefixGrows(st: Stream, cells: seq<Cell>, k: nat, size: int)
    requires k <= |cells|
    ensures Absorb(st, cells[..k], size).out <= Absorb(st, cells, size).out
    decreases |cells|
  {
    if k < |cells| {
      assert cells[..|cells| - 1][..k] == cells[..k];
      AbsorbPrefixGrows(st, cells[..|cells| - 1], k, size);
    } else {
      assert cells[..k] == cells;
    }
  }

  /** One round of the outer loop. */
  method HandleLine(ghost st: Stream, lines: seq<string>, address: nat, start: nat, payload: string, count: nat,
                    line: string, ghost rec: Record, size: int)
    returns (lines': seq<string>, address': nat, start': nat, payload': string, count': nat, ok: bool)
    requires Holds(st, lines, address, start, payload, count) && Parse(line) == Ok(rec)
    ensures ok ==> Holds(Step(st, rec, size), lines', address', start', payload', count')
    ensures !ok ==> EmitAll(Step(st, rec, size).out).ValueError?
  {
    lines', address', start', payload', count', ok := lines, address, start, payload, count, true;
    if IsS3(line) {
      var lineAddress := Hex.Value(Slice(line, 4, 12));
      if address == 0 {
        address', start' := lineAddress, lineAddress;
      } else if address != lineAddress {
        if count != 0 {
          var appended := Output(st, lines, address, start, payload, count);
          if appended.ValueError? {
            ok := false;
            AbsorbGrows(Seek(st, lineAddress), rec.payload, size);
            EmitErrorSpreads(Flush(st).out, Step(st, rec, size).out);
            return;
          }
          lines', count', payload' := appended.value, 0, "";
        }
        address', start' := lineAddress, lineAddress;
      }
      lines', address', start', payload', count', ok :=
        AbsorbLine(Seek(st, lineAddress), lines', address', start', payload', count', line, size);
    } else {
      ghost var flushed := if st.pending == [] then st else Flush(st).(address := 0);
      EmitAllAppend(flushed.out, rec);
      if count != 0 {
        var appended := Output(st, lines, address, start, payload, count);
        if appended.ValueError? {
          ok := false;
          return;
        }
        lines', count', payload', address' := appended.value, 0, "", 0;
      }
      lines' := lines' + [line];
    }
  }

  /** resize. */
  method ResizeLines(lines: seq<string>, size: int) returns (r: Result<seq<string>>)
    ensures r == ResizeText(lines, size)
  {
    var allLines, address, start, payload, count := [], 0, 0, "", 0;
    ghost var recs: seq<Record> := [];
    assert lines[..0] == [];
    for i := 0 to |lines|
      invariant ParseAll(lines[..i]) == Ok(recs)
      invariant Holds(Run(recs, size), allLines, address, start, payload, count)
    {
      assert lines[..i + 1][..i] == lines[..i];
      var line := RStrip(lines[i]);
      if Parse(line).ValueError? {
        ParseErrorSpreads(lines, i);
        return ValueError;
      }
      ghost var rec := Parse(line).value;
      assert (recs + [rec])[..|recs|] == recs;
      var ok;
      allLines, address, start, payload, count, ok :=
        HandleLine(Run(recs, size), allLines, address, start, payload, count, line, rec, size);
      recs := recs + [rec];
      if !ok {
        FailsEarly(lines, i, recs, Run(recs, size).out, size);
        return ValueError;
      }
    }
    assert lines[..|lines|] == lines;
    r := Ok(allLines);
  }
}
