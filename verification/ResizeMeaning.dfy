/** What resize means: the declarative form of re-chunking, and what it keeps of the memory image. */
module ResizeMeaning {
  import opened Sequences
  import opened SRecord
  import opened Resize

  function End(rec: Record): nat
    requires rec.S3?
  {
    rec.address + |rec.payload|
  }

  /** `b` starts at the address just after `a`. */
  predicate Abuts(a: Record, b: Record) {
    a.S3? && b.S3? && End(a) == b.address
  }

  // ---------------------------------------------------------------- contiguous runs, cut into chunks

  function AddBlock(blocks: seq<Record>, rec: Record): (r: seq<Record>)
    ensures r != []
  {
    if blocks != [] && Abuts(Last(blocks), rec)
    then Front(blocks) + [S3(Last(blocks).address, Last(blocks).payload + rec.payload)]
    else blocks + [rec]
  }

  /** The contiguous runs of S3 records, each as one record, with the other lines between them. */
  function Blocks(recs: seq<Record>): (blocks: seq<Record>)
    ensures recs != [] ==> blocks != []
  {
    if recs == [] then [] else AddBlock(Blocks(Front(recs)), Last(recs))
  }

  /** A run cut into pieces of `size` bytes, the last one filled up to a multiple of four. */
  function Chunks(address: nat, cells: seq<Cell>, size: int): (r: seq<Record>)
    decreases |cells|
  {
    if cells == [] then []
    else if size <= 0 || |cells| <= size then [S3(address, Pad4(cells))]
    else [S3(address, Pad4(cells[..size]))] + Chunks(address + size, cells[size..], size)
  }

  function Rechunk(blocks: seq<Record>, size: int): seq<Record> {
    if blocks == [] then []
    else Rechunk(Front(blocks), size) + RechunkOne(Last(blocks), size)
  }

  function RechunkOne(block: Record, size: int): seq<Record> {
    match block
    case S3(address, payload) => Chunks(address, payload, size)
    case Other(_) => [block]
  }

  /** The pieces already written, and the bytes still stored, once `cells` of a run have been read. */
  function FullChunks(address: nat, cells: seq<Cell>, size: int): seq<Record>
    decreases |cells|
  {
    if size <= 0 || |cells| < size then []
    else [S3(address, Pad4(cells[..size]))] + FullChunks(address + size, cells[size..], size)
  }

  function Rest(cells: seq<Cell>, size: int): (r: seq<Cell>)
    ensures |r| <= |cells| && (size > 0 ==> |r| < size)
    decreases |cells|
  {
    if size <= 0 || |cells| < size then cells else Rest(cells[size..], size)
  }

  /** The stored bytes are what is left over after the full pieces. */
  lemma {:induction false} RestLength(cells: seq<Cell>, size: int)
    requires size > 0
    ensures |Rest(cells, size)| == |cells| % size
    decreases |cells|
  {
    if |cells| >= size {
      RestLength(cells[size..], size);
      assert |cells| % size == (|cells| - size) % size by {
        ModMinus(|cells|, size);
      }
    }
  }

  lemma QuotientUnique(a: int, n: int, q: int, r: int)
    requires n > 0 && a == n * q + r && 0 <= r < n
    ensures a / n == q && a % n == r
  {
    var d := a / n - q;
    assert n * d == r - a % n;
    assert d >= 1 ==> n * d >= n;
    assert d <= -1 ==> n * d <= -n;
  }

  lemma ModMinus(a: int, n: int)
    requires n > 0
    ensures a % n == (a - n) % n
  {
    var q := (a - n) / n;
    assert n * (q + 1) == n * q + n;
    QuotientUnique(a, n, q + 1, (a - n) % n);
  }

  lemma {:induction false} ChunksSplit(address: nat, cells: seq<Cell>, size: int)
    ensures Chunks(address, cells, size) == FullChunks(address, cells, size) +
            (if Rest(cells, size) == [] then []
             else [S3(address + |cells| - |Rest(cells, size)|, Pad4(Rest(cells, size)))])
    decreases |cells|
  {
    if size > 0 && |cells| >= size && cells != [] {
      ChunksSplit(address + size, cells[size..], size);
      if |cells| == size {
        assert cells[..size] == cells;
      }
    }
  }

  /** Reading one more byte completes a piece exactly when `size` bytes are stored. */
  predicate PushSplits(address: nat, cells: seq<Cell>, cell: Cell, size: int) {
    var rest := Rest(cells, size) + [cell];
    if |rest| == size
    then FullChunks(address, cells + [cell], size) ==
         FullChunks(address, cells, size) + [S3(address + |cells| + 1 - size, Pad4(rest))]
         && Rest(cells + [cell], size) == []
    else FullChunks(address, cells + [cell], size) == FullChunks(address, cells, size)
         && Rest(cells + [cell], size) == rest
  }

  lemma PushDeeper(address: nat, cells: seq<Cell>, cell: Cell, size: int)
    requires 0 < size <= |cells| && PushSplits(address + size, cells[size..], cell, size)
    ensures PushSplits(address, cells, cell, size)
  {
    hide Pad4;
    var head, tail := cells[..size], cells[size..];
    var all := cells + [cell];
    assert all[..size] == head && all[size..] == tail + [cell];
    var rest := Rest(tail, size) + [cell];
    var last := [S3(address + |cells| + 1 - size, Pad4(rest))];
    Regroup([S3(address, Pad4(head))], FullChunks(address + size, tail, size), last);
  }

  lemma PushShallow(address: nat, cells: seq<Cell>, cell: Cell, size: int)
    requires size <= 0 || |cells| < size
    ensures PushSplits(address, cells, cell, size)
  {
    hide Pad4;
    if |cells| + 1 == size {
      assert (cells + [cell])[..size] == cells + [cell];
      assert (cells + [cell])[size..] == [];
      assert Rest([], size) == [] && FullChunks(address + size, [], size) == [];
    }
  }

  lemma {:induction false} PushSplit(address: nat, cells: seq<Cell>, cell: Cell, size: int)
    ensures PushSplits(address, cells, cell, size)
    decreases |cells|
  {
    hide PushSplits;
    if size > 0 && |cells| >= size {
      PushSplit(address + size, cells[size..], cell, size);
      PushDeeper(address, cells, cell, size);
    } else {
      PushShallow(address, cells, cell, size);
    }
  }

  /** The stream has read `cells` of a run at `address`, after writing `before`. */
  ghost predicate InRun(st: Stream, before: seq<Record>, address: nat, cells: seq<Cell>, size: int) {
    && st.out == before + FullChunks(address, cells, size)
    && st.pending == Rest(cells, size)
    && st.start == address + |cells| - |Rest(cells, size)|
    && st.address == address + |cells|
  }

  lemma PushStaysInRun(st: Stream, before: seq<Record>, address: nat, cells: seq<Cell>, cell: Cell, size: int)
    requires InRun(st, before, address, cells, size)
    ensures InRun(Push(st, cell, size), before, address, cells + [cell], size)
  {
    PushSplit(address, cells, cell, size);
    var rest := Rest(cells, size) + [cell];
    if |rest| == size {
      var piece := S3(address + |cells| + 1 - size, Pad4(rest));
      assert before + FullChunks(address, cells, size) + [piece] == before + (FullChunks(address, cells, size) + [piece]);
    }
  }

  lemma {:induction false} AbsorbStaysInRun(st: Stream, before: seq<Record>, address: nat, cells: seq<Cell>,
                                            more: seq<Cell>, size: int)
    requires InRun(st, before, address, cells, size)
    ensures InRun(Absorb(st, more, size), before, address, cells + more, size)
    decreases |more|
  {
    if more == [] {
      assert cells + more == cells;
    } else {
      var read := cells + Front(more);
      AbsorbStaysInRun(st, before, address, cells, Front(more), size);
      PushStaysInRun(Absorb(st, Front(more), size), before, address, read, Last(more), size);
      assert cells + more == read + [Last(more)];
    }
  }

  /** The stream after a prefix, in terms of the runs of that prefix. */
  ghost predicate Tracks(st: Stream, blocks: seq<Record>, size: int) {
    if blocks == [] then st == EMPTY
    else
      match Last(blocks)
      case S3(address, payload) => InRun(st, Rechunk(Front(blocks), size), address, payload, size)
      case Other(_) =>
        && st.out == Rechunk(blocks, size) && st.pending == []
        && (st.address == 0 || st.start == st.address)
  }

  lemma FlushCompletes(st: Stream, blocks: seq<Record>, size: int)
    requires Tracks(st, blocks, size)
    ensures Flush(st).out == Rechunk(blocks, size)
  {
    hide Pad4, Rest, FullChunks, Chunks;
    if blocks != [] && Last(blocks).S3? {
      var before, address, cells := Rechunk(Front(blocks), size), Last(blocks).address, Last(blocks).payload;
      ChunksSplit(address, cells, size);
      if st.pending != [] {
        var piece := S3(st.start, Pad4(st.pending));
        assert before + FullChunks(address, cells, size) + [piece] == before + (FullChunks(address, cells, size) + [piece]);
      }
    }
  }

  lemma StepTracks(st: Stream, blocks: seq<Record>, rec: Record, size: int)
    requires Tracks(st, blocks, size)
    ensures Tracks(Step(st, rec, size), AddBlock(blocks, rec), size)
  {
    FlushCompletes(st, blocks, size);
    if rec.S3? {
      var sought := Seek(st, rec.address);
      if blocks != [] && Abuts(Last(blocks), rec) {
        var last := Last(blocks);
        AbsorbStaysInRun(sought, Rechunk(Front(blocks), size), last.address, last.payload, rec.payload, size);
      } else {
        assert InRun(sought, Rechunk(blocks, size), rec.address, [], size);
        AbsorbStaysInRun(sought, Rechunk(blocks, size), rec.address, [], rec.payload, size);
        assert [] + rec.payload == rec.payload;
      }
    }
  }

  lemma {:induction false} RunTracks(recs: seq<Record>, size: int)
    ensures Tracks(Run(recs, size), Blocks(recs), size)
    decreases |recs|
  {
    if recs != [] {
      RunTracks(Front(recs), size);
      StepTracks(Run(Front(recs), size), Blocks(Front(recs)), Last(recs), size);
    }
  }

  /** The number of bytes at the end of the input that no complete piece takes up: the length of the last run, when
      the input ends in one, modulo the size of a piece. */
  function Unwritten(recs: seq<Record>, size: int): nat {
    var blocks := Blocks(recs);
    if blocks == [] || Last(blocks).Other? then 0
    else if size > 0 then |Last(blocks).payload| % size
    else |Last(blocks).payload|
  }

  /** The one-pass stream is run-by-run chunking; the last incomplete piece is missing from it exactly when
      the input ends inside a run whose length `size` does not divide. */
  lemma StreamIsRechunk(recs: seq<Record>, size: int)
    ensures Run(recs, size).out == Rechunk(Blocks(recs), size) <==> Unwritten(recs, size) == 0
    ensures Run(recs, size).out <= Rechunk(Blocks(recs), size)
    ensures recs != [] && Last(recs).Other? ==> Unwritten(recs, size) == 0
  {
    RunTracks(recs, size);
    FlushCompletes(Run(recs, size), Blocks(recs), size);
    RestIsUnwritten(Blocks(recs), size);
  }

  lemma RestIsUnwritten(blocks: seq<Record>, size: int)
    ensures blocks != [] && Last(blocks).S3? && size > 0 ==>
              |Rest(Last(blocks).payload, size)| == |Last(blocks).payload| % size
  {
    if blocks != [] && Last(blocks).S3? && size > 0 {
      RestLength(Last(blocks).payload, size);
    }
  }

  // ---------------------------------------------------------------- the memory image

  /** The addressed bytes of a payload, in order. */
  function Image(address: nat, cells: seq<Cell>): seq<(nat, Cell)> {
    seq(|cells|, i requires 0 <= i < |cells| => (address + i, cells[i]))
  }

  /** What `f` reads from each record, in order. */
  function Gather<T>(f: Record -> seq<T>, recs: seq<Record>): seq<T> {
    if recs == [] then [] else Gather(f, Front(recs)) + f(Last(recs))
  }

  function ImageOf(rec: Record): seq<(nat, Cell)> {
    if rec.S3? then Image(rec.address, rec.payload) else []
  }

  /** A run with its filling: at most three FF bytes, directly after the last one. */
  function FilledImageOf(rec: Record): seq<(nat, Cell)> {
    if rec.S3? then Image(rec.address, Pad4(rec.payload)) else []
  }

  function OtherOf(rec: Record): seq<string> {
    if rec.Other? then [rec.text] else []
  }

  lemma {:induction false} GatherConcat<T>(f: Record -> seq<T>, a: seq<Record>, b: seq<Record>)
    ensures Gather(f, a + b) == Gather(f, a) + Gather(f, b)
    decreases |b|
  {
    if b == [] {
      assert a + b == a;
    } else {
      assert Front(a + b) == a + Front(b) && Last(a + b) == Last(b);
      GatherConcat(f, a, Front(b));
      Regroup(Gather(f, a), Gather(f, Front(b)), f(Last(b)));
    }
  }

  lemma GatherOne<T>(f: Record -> seq<T>, rec: Record)
    ensures Gather(f, [rec]) == f(rec)
  {
    assert Front([rec]) == [];
  }

  /** Joining a record to the run it abuts is invisible to an `f` that is additive on payloads. */
  lemma AddBlockGather<T>(f: Record -> seq<T>, blocks: seq<Record>, rec: Record)
    requires blocks != [] && Abuts(Last(blocks), rec) ==>
               f(S3(Last(blocks).address, Last(blocks).payload + rec.payload)) == f(Last(blocks)) + f(rec)
    ensures Gather(f, AddBlock(blocks, rec)) == Gather(f, blocks) + f(rec)
  {
    assert Front(AddBlock(blocks, rec)) == if blocks != [] && Abuts(Last(blocks), rec) then Front(blocks) else blocks;
  }

  /** Reading the pieces with `f` is reading the runs with `g` when that holds run by run. */
  lemma {:induction false} RechunkGather<T>(f: Record -> seq<T>, g: Record -> seq<T>, blocks: seq<Record>, size: int)
    requires forall i | 0 <= i < |blocks| :: Gather(f, RechunkOne(blocks[i], size)) == g(blocks[i])
    ensures Gather(f, Rechunk(blocks, size)) == Gather(g, blocks)
    decreases |blocks|
  {
    if blocks != [] {
      RechunkGather(f, g, Front(blocks), size);
      GatherConcat(f, Rechunk(Front(blocks), size), RechunkOne(Last(blocks), size));
    }
  }

  lemma ImageConcat(address: nat, a: seq<Cell>, b: seq<Cell>)
    ensures Image(address, a + b) == Image(address, a) + Image(address + |a|, b)
  {
  }

  lemma {:induction false} BlocksGather(recs: seq<Record>)
    ensures Gather(ImageOf, Blocks(recs)) == Gather(ImageOf, recs)
    ensures Gather(OtherOf, Blocks(recs)) == Gather(OtherOf, recs)
    decreases |recs|
  {
    if recs != [] {
      var blocks, rec := Blocks(Front(recs)), Last(recs);
      BlocksGather(Front(recs));
      if blocks != [] && Abuts(Last(blocks), rec) {
        ImageConcat(Last(blocks).address, Last(blocks).payload, rec.payload);
      }
      AddBlockGather(ImageOf, blocks, rec);
      AddBlockGather(OtherOf, blocks, rec);
    }
  }

  lemma FourAdd(m: nat, n: nat)
    requires m % 4 == 0
    ensures (m + n) % 4 == n % 4
  {
    assert m == 4 * (m / 4) && n == 4 * (n / 4) + n % 4;
    assert m + n == 4 * (m / 4 + n / 4) + n % 4;
  }

  lemma {:induction false} PadTail(a: seq<Cell>, b: seq<Cell>)
    requires |a| % 4 == 0
    ensures Pad4(a + b) == a + Pad4(b)
    decreases |Pad4(b)| - |b|
  {
    FourAdd(|a|, |b|);
    if |b| % 4 != 0 {
      Regroup(a, b, [FILL]);
      PadTail(a, b + [FILL]);
    }
  }

  /** `f` of a payload is `f` of its parts, when the first part is a whole number of words. */
  ghost predicate Additive<T>(f: Record -> seq<T>) {
    && (forall a: nat :: f(S3(a, [])) == [])
    && forall a: nat, x: seq<Cell>, y: seq<Cell> | |x| % 4 == 0 ::
         f(S3(a, x + y)) == f(S3(a, x)) + f(S3(a + |x|, y))
  }

  /** The pieces of a run say together what the filled run says. */
  lemma {:induction false} ChunksGather<T>(f: Record -> seq<T>, address: nat, cells: seq<Cell>, size: int)
    requires size % 4 == 0 && Additive(f)
    ensures Gather(f, Chunks(address, cells, size)) == f(S3(address, Pad4(cells)))
    decreases |cells|
  {
    if cells == [] {
      assert Pad4(cells) == [];
    } else if size <= 0 || |cells| <= size {
      GatherOne(f, S3(address, Pad4(cells)));
    } else {
      var head, tail := cells[..size], cells[size..];
      var first, others := [S3(address, head)], Chunks(address + size, tail, size);
      ChunksGather(f, address + size, tail, size);
      GatherConcat(f, first, others);
      GatherOne(f, first[0]);
      assert Chunks(address, cells, size) == first + others;
      PadTail(head, tail);
      assert cells == head + tail;
      assert f(S3(address, head + Pad4(tail))) == f(S3(address, head)) + f(S3(address + |head|, Pad4(tail)));
    }
  }

  lemma ImageIsAdditive()
    ensures Additive(ImageOf)
  {
    forall a: nat, x: seq<Cell>, y: seq<Cell> | |x| % 4 == 0
      ensures ImageOf(S3(a, x + y)) == ImageOf(S3(a, x)) + ImageOf(S3(a + |x|, y))
    {
      ImageConcat(a, x, y);
    }
  }

  lemma {:induction false} ChunksOthers(address: nat, cells: seq<Cell>, size: int)
    ensures Gather(OtherOf, Chunks(address, cells, size)) == []
    decreases |cells|
  {
    if cells != [] {
      if 0 < size < |cells| {
        var first := S3(address, Pad4(cells[..size]));
        ChunksOthers(address + size, cells[size..], size);
        GatherConcat(OtherOf, [first], Chunks(address + size, cells[size..], size));
        GatherOne(OtherOf, first);
      } else {
        GatherOne(OtherOf, S3(address, Pad4(cells)));
      }
    }
  }

  lemma RechunkKeepsMemory(blocks: seq<Record>, size: int)
    requires size % 4 == 0
    ensures Gather(ImageOf, Rechunk(blocks, size)) == Gather(FilledImageOf, blocks)
    ensures Gather(OtherOf, Rechunk(blocks, size)) == Gather(OtherOf, blocks)
  {
    forall i | 0 <= i < |blocks|
      ensures Gather(ImageOf, RechunkOne(blocks[i], size)) == FilledImageOf(blocks[i])
      ensures Gather(OtherOf, RechunkOne(blocks[i], size)) == OtherOf(blocks[i])
    {
      if blocks[i].S3? {
        ImageIsAdditive();
        ChunksGather(ImageOf, blocks[i].address, blocks[i].payload, size);
        ChunksOthers(blocks[i].address, blocks[i].payload, size);
      } else {
        GatherOne(ImageOf, blocks[i]);
        GatherOne(OtherOf, blocks[i]);
      }
    }
    RechunkGather(ImageOf, FilledImageOf, blocks, size);
    RechunkGather(OtherOf, OtherOf, blocks, size);
  }

  /** resize keeps what the records mean: the output holds every byte of the input at its address, each run
      followed by at most three FF bytes, and the other lines in their order. */
  lemma ResizeKeepsMemory(recs: seq<Record>, size: int)
    requires size % 4 == 0 && Unwritten(recs, size) == 0
    ensures Gather(ImageOf, recs) == Gather(ImageOf, Blocks(recs))
    ensures Gather(ImageOf, Run(recs, size).out) == Gather(FilledImageOf, Blocks(recs))
    ensures Gather(OtherOf, Run(recs, size).out) == Gather(OtherOf, recs)
  {
    StreamIsRechunk(recs, size);
    BlocksGather(recs);
    RechunkKeepsMemory(Blocks(recs), size);
  }

  /** The memory image is kept exactly when the input does not end in a run whose length `size` does not divide; else
      its last bytes are never written. */
  lemma MemoryKeptExactly(recs: seq<Record>, size: int)
    requires size % 4 == 0
    ensures Gather(ImageOf, Run(recs, size).out) == Gather(FilledImageOf, Blocks(recs)) <==> Unwritten(recs, size) == 0
  {
    var st := Run(recs, size);
    RunTracks(recs, size);
    FlushCompletes(st, Blocks(recs), size);
    RestIsUnwritten(Blocks(recs), size);
    RechunkKeepsMemory(Blocks(recs), size);
    if st.pending != [] {
      var piece := S3(st.start, Pad4(st.pending));
      GatherConcat(ImageOf, st.out, [piece]);
      GatherOne(ImageOf, piece);
      assert |ImageOf(piece)| > 0;
    }
  }

  /** Every piece that is written is a positive multiple of four bytes long, and no longer than `size`. */
  ghost predicate GoodPieces(recs: seq<Record>, size: int) {
    forall i | 0 <= i < |recs| && recs[i].S3? ::
      |recs[i].payload| % 4 == 0 && 0 < |recs[i].payload| && (size > 0 ==> |recs[i].payload| <= size)
  }

  lemma {:induction false} ChunksAreGood(address: nat, cells: seq<Cell>, size: int)
    requires size % 4 == 0
    ensures GoodPieces(Chunks(address, cells, size), size)
    decreases |cells|
  {
    if cells != [] && 0 < size < |cells| {
      ChunksAreGood(address + size, cells[size..], size);
    }
  }

  lemma {:induction false} RechunkIsGood(blocks: seq<Record>, size: int)
    requires size % 4 == 0
    ensures GoodPieces(Rechunk(blocks, size), size)
    decreases |blocks|
  {
    if blocks != [] {
      RechunkIsGood(Front(blocks), size);
      if Last(blocks).S3? {
        ChunksAreGood(Last(blocks).address, Last(blocks).payload, size);
      }
    }
  }

  lemma ResizeWritesGoodPieces(recs: seq<Record>, size: int)
    requires size % 4 == 0
    ensures GoodPieces(Run(recs, size).out, size)
  {
    StreamIsRechunk(recs, size);
    RechunkIsGood(Blocks(recs), size);
  }
}
