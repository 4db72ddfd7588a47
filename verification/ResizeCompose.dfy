/** Resizing twice. A record without payload ends a run but is not written, so the second pass may see
    one run where the first saw two; that is the only thing that can make the two ways differ. */
module ResizeCompose {
  import opened Sequences
  import opened SRecord
  import opened Resize
  import opened ResizeMeaning

  predicate Nonempty(rec: Record) {
    rec.S3? ==> rec.payload != []
  }

  predicate WholeRun(rec: Record) {
    rec.S3? ==> |rec.payload| % 4 == 0
  }

  ghost predicate WholeRuns(blocks: seq<Record>) {
    forall i | 0 <= i < |blocks| :: WholeRun(blocks[i])
  }

  function AddAll(blocks: seq<Record>, recs: seq<Record>): seq<Record> {
    if recs == [] then blocks else AddBlock(AddAll(blocks, Front(recs)), Last(recs))
  }

  /** The runs as a second pass sees them: empty ones gone, and abutting ones joined. */
  function Tidy(blocks: seq<Record>): (r: seq<Record>)
  {
    if blocks == [] then []
    else if Nonempty(Last(blocks)) then AddBlock(Tidy(Front(blocks)), Last(blocks))
    else Tidy(Front(blocks))
  }

  lemma {:induction false} AddAllConcat(blocks: seq<Record>, a: seq<Record>, b: seq<Record>)
    ensures AddAll(blocks, a + b) == AddAll(AddAll(blocks, a), b)
    decreases |b|
  {
    if b == [] {
      assert a + b == a;
    } else {
      assert Front(a + b) == a + Front(b);
      AddAllConcat(blocks, a, Front(b));
    }
  }

  lemma {:induction false} AddAllIsBlocks(recs: seq<Record>)
    ensures AddAll([], recs) == Blocks(recs)
    decreases |recs|
  {
    if recs != [] {
      AddAllIsBlocks(Front(recs));
    }
  }

  lemma AddTwice(blocks: seq<Record>, address: nat, x: seq<Cell>, y: seq<Cell>)
    ensures AddBlock(AddBlock(blocks, S3(address, x)), S3(address + |x|, y)) == AddBlock(blocks, S3(address, x + y))
  {
    var once := AddBlock(blocks, S3(address, x));
    var first := S3(address, x);
    if blocks != [] && Abuts(Last(blocks), first) {
      assert Last(blocks).payload + x + y == Last(blocks).payload + (x + y);
      assert Front(once) == Front(blocks);
    } else {
      assert Front(once) == blocks;
    }
  }

  lemma AddOne(blocks: seq<Record>, rec: Record)
    ensures AddAll(blocks, [rec]) == AddBlock(blocks, rec)
  {
    assert Front([rec]) == [];
  }

  lemma FoursApart(m: nat, n: nat)
    requires m % 4 == 0 && n % 4 == 0 && n <= m
    ensures (m - n) % 4 == 0
  {
  }

  /** Adding the pieces of a run one by one adds the run. */
  lemma {:induction false} AddChunks(blocks: seq<Record>, address: nat, cells: seq<Cell>, size: int)
    requires size % 4 == 0 && |cells| % 4 == 0 && cells != []
    ensures AddAll(blocks, Chunks(address, cells, size)) == AddBlock(blocks, S3(address, cells))
    decreases |cells|
  {
    hide AddBlock, AddAll;
    if size <= 0 || |cells| <= size {
      assert Chunks(address, cells, size) == [S3(address, cells)];
      AddOne(blocks, S3(address, cells));
    } else {
      var head, tail := cells[..size], cells[size..];
      FoursApart(|cells|, size);
      var first, others := [S3(address, head)], Chunks(address + size, tail, size);
      assert Chunks(address, cells, size) == first + others;
      hide Chunks, Pad4;
      AddAllConcat(blocks, first, others);
      AddOne(blocks, first[0]);
      AddChunks(AddBlock(blocks, first[0]), address + size, tail, size);
      AddTwice(blocks, address, head, tail);
      assert head + tail == cells;
    }
  }

  lemma {:induction false} BlocksOfRechunk(blocks: seq<Record>, size: int)
    requires size % 4 == 0 && WholeRuns(blocks)
    ensures Blocks(Rechunk(blocks, size)) == Tidy(blocks)
    decreases |blocks|
  {
    if blocks != [] {
      var before, last := Front(blocks), Last(blocks);
      BlocksOfRechunk(before, size);
      AddAllIsBlocks(Rechunk(before, size));
      AddAllConcat([], Rechunk(before, size), RechunkOne(last, size));
      AddAllIsBlocks(Rechunk(before, size) + RechunkOne(last, size));
      assert WholeRun(last);
      if last.S3? && last.payload != [] {
        AddChunks(Tidy(before), last.address, last.payload, size);
      } else if last.Other? {
        assert Front([last]) == [];
      }
    }
  }

  /** Wherever two abutting runs were kept apart only by empty records, the bytes collected up to the joint
      are a whole number of pieces. */
  predicate CleanJoins(blocks: seq<Record>, size: int)
    requires size > 0
  {
    blocks == [] || (CleanJoins(Front(blocks), size) && CleanJoin(Tidy(Front(blocks)), Last(blocks), size))
  }

  predicate Joins(tidy: seq<Record>, rec: Record) {
    Nonempty(rec) && tidy != [] && Abuts(Last(tidy), rec)
  }

  predicate CleanJoin(tidy: seq<Record>, rec: Record, size: int)
    requires size > 0
  {
    Joins(tidy, rec) ==> |Last(tidy).payload| % size == 0
  }

  /** Cutting in two places or in one: the same exactly when the first part is a whole number of pieces. */
  lemma {:induction false} ChunksJoin(address: nat, x: seq<Cell>, y: seq<Cell>, size: int)
    requires size > 0 && |x| % size == 0
    ensures Chunks(address, x + y, size) == Chunks(address, x, size) + Chunks(address + |x|, y, size)
    decreases |x|
  {
    if x == [] {
      assert x + y == y;
    } else if y == [] {
      assert x + y == x;
    } else {
      AtLeastOne(|x|, size);
      var head, tail := x[..size], x[size..];
      assert (x + y)[..size] == head && (x + y)[size..] == tail + y;
      ChunksJoin(address + size, tail, y, size);
      if |x| == size {
        assert x == head;
      }
    }
  }

  lemma AtLeastOne(a: nat, n: int)
    requires n > 0 && a > 0 && a % n == 0
    ensures a >= n && (a - n) % n == 0
  {
    ModMinus(a, n);
  }

  lemma {:induction false} CleanJoinsSuffice(blocks: seq<Record>, size: int)
    requires size > 0 && CleanJoins(blocks, size)
    ensures Rechunk(Tidy(blocks), size) == Rechunk(blocks, size)
    decreases |blocks|
  {
    if blocks != [] {
      var tidy, rec := Tidy(Front(blocks)), Last(blocks);
      CleanJoinsSuffice(Front(blocks), size);
      if Nonempty(rec) {
        if Joins(tidy, rec) {
          ChunksJoin(Last(tidy).address, Last(tidy).payload, rec.payload, size);
          assert Front(AddBlock(tidy, rec)) == Front(tidy);
        } else {
          assert Front(AddBlock(tidy, rec)) == tidy;
        }
      }
    }
  }

  // ---------------------------------------------------------------- the other direction

  function Bytes(rec: Record): nat {
    if rec.S3? then |rec.payload| else 0
  }

  /** More bytes in a run never shorten a piece. */
  lemma {:induction false} ChunksGrow(address: nat, x: seq<Cell>, y: seq<Cell>, size: int, i: nat)
    requires size > 0 && i < |Chunks(address, x, size)|
    ensures i < |Chunks(address, x + y, size)|
    ensures Bytes(Chunks(address, x, size)[i]) <= Bytes(Chunks(address, x + y, size)[i])
    decreases |x|
  {
    if |x| <= size {
      if |x + y| <= size {
        PadGrows(x, y);
      } else {
        var head := (x + y)[..size];
        assert head == x + y[..size - |x|];
        PadGrows(x, y[..size - |x|]);
      }
    } else {
      assert (x + y)[..size] == x[..size] && (x + y)[size..] == x[size..] + y;
      if i > 0 {
        ChunksGrow(address + size, x[size..], y, size, i - 1);
      }
    }
  }

  lemma PadGrows(x: seq<Cell>, y: seq<Cell>)
    ensures |Pad4(x)| <= |Pad4(x + y)|
  {
    PadLength(x);
    PadLength(x + y);
    hide Pad4;
    assert (|x| + 3) / 4 <= (|x + y| + 3) / 4;
  }

  lemma PadLength(x: seq<Cell>)
    ensures |Pad4(x)| == (|x| + 3) / 4 * 4
    decreases (4 - |x| % 4) % 4
  {
    NextFour(|x|);
    if |x| % 4 != 0 {
      PadLength(x + [FILL]);
    }
  }

  /** Filling up by one does not change what it is filled up to. */
  lemma NextFour(n: nat)
    ensures n % 4 == 0 ==> (n + 3) / 4 * 4 == n
    ensures n % 4 != 0 ==> (n + 1 + 3) / 4 == (n + 3) / 4 && (4 - (n + 1) % 4) % 4 < (4 - n % 4) % 4
  {
    assert n == 4 * (n / 4) + n % 4;
  }

  /** When the first part is not a whole number of pieces, joining lengthens its last piece. */
  lemma {:induction false} BadJoinShows(address: nat, x: seq<Cell>, y: seq<Cell>, size: int)
    requires size > 0 && size % 4 == 0 && |x| % 4 == |y| % 4 == 0 && y != [] && |x| % size != 0
    ensures var i := |Chunks(address, x, size)| - 1;
            0 <= i < |Chunks(address, x + y, size)|
            && Bytes(Chunks(address, x, size)[i]) < Bytes(Chunks(address, x + y, size)[i])
    decreases |x|
  {
    if |x| < size {
      SmallRemainder(|x|, size);
      ShortPieceGrows(address, x, y, size);
    } else {
      ModMinus(|x|, size);
      SmallRemainder(0, size);
      FoursApart(|x|, size);
      var head, tail := x[..size], x[size..];
      assert (x + y)[..size] == head && (x + y)[size..] == tail + y;
      BadJoinShows(address + size, tail, y, size);
      assert Chunks(address, x, size) == [S3(address, Pad4(head))] + Chunks(address + size, tail, size);
      assert Chunks(address, x + y, size) == [S3(address, Pad4(head))] + Chunks(address + size, tail + y, size);
    }
  }

  lemma SmallRemainder(a: nat, n: nat)
    requires a < n
    ensures a % n == a
  {
  }

  lemma ShortPieceGrows(address: nat, x: seq<Cell>, y: seq<Cell>, size: int)
    requires 0 < |x| < size && size % 4 == 0 && |x| % 4 == |y| % 4 == 0 && y != []
    ensures |Chunks(address, x, size)| == 1 && Chunks(address, x + y, size) != []
    ensures Bytes(Chunks(address, x, size)[0]) < Bytes(Chunks(address, x + y, size)[0])
  {
    assert Pad4(x) == x;
    if |x + y| <= size {
      assert |Pad4(x + y)| >= |x + y|;
    } else {
      assert |Pad4((x + y)[..size])| >= size;
    }
  }

  /** Position i of the second pass holds a longer piece than the single pass wrote there. */
  ghost predicate Longer(once: seq<Record>, twice: seq<Record>, i: nat) {
    i < |once| && i < |twice| && Bytes(once[i]) < Bytes(twice[i])
  }

  /** A difference stays: later records only add pieces or lengthen the last one. */
  lemma LongerStays(tidy: seq<Record>, once: seq<Record>, more: seq<Record>, rec: Record, size: int, i: nat)
    requires size > 0 && Longer(once, Rechunk(tidy, size), i)
    ensures Longer(once + more, Rechunk(AddBlock(tidy, rec), size), i)
  {
    if tidy != [] && Abuts(Last(tidy), rec) {
      var before, last := Rechunk(Front(tidy), size), Last(tidy);
      assert Front(AddBlock(tidy, rec)) == Front(tidy);
      if |before| <= i {
        ChunksGrow(last.address, last.payload, rec.payload, size, i - |before|);
      }
    } else {
      assert Front(AddBlock(tidy, rec)) == tidy;
    }
  }

  lemma {:induction false} TidyIsWhole(blocks: seq<Record>)
    requires WholeRuns(blocks)
    ensures WholeRuns(Tidy(blocks))
    decreases |blocks|
  {
    if blocks != [] {
      TidyIsWhole(Front(blocks));
      assert WholeRun(Last(blocks));
      var tidy, rec := Tidy(Front(blocks)), Last(blocks);
      if Joins(tidy, rec) {
        assert WholeRun(Last(tidy));
        assert |Last(AddBlock(tidy, rec)).payload| == |Last(tidy).payload| + |rec.payload|;
      }
    }
  }

  lemma FirstBadJoin(tidy: seq<Record>, rec: Record, once: seq<Record>, size: int) returns (i: nat)
    requires size > 0 && size % 4 == 0 && WholeRuns(tidy) && WholeRun(rec)
    requires !CleanJoin(tidy, rec, size) && once == Rechunk(tidy, size)
    ensures Longer(once + RechunkOne(rec, size), Rechunk(AddBlock(tidy, rec), size), i)
  {
    var before, last := Rechunk(Front(tidy), size), Last(tidy);
    assert WholeRun(last);
    BadJoinShows(last.address, last.payload, rec.payload, size);
    assert Front(AddBlock(tidy, rec)) == Front(tidy);
    i := |once| - 1;
  }

  lemma {:induction false} DirtyJoinShows(blocks: seq<Record>, size: int) returns (i: nat)
    requires size > 0 && size % 4 == 0 && WholeRuns(blocks) && !CleanJoins(blocks, size)
    ensures Longer(Rechunk(blocks, size), Rechunk(Tidy(blocks), size), i)
    decreases |blocks|
  {
    var before, rec := Front(blocks), Last(blocks);
    var tidy := Tidy(before);
    assert WholeRun(rec);
    if CleanJoins(before, size) {
      CleanJoinsSuffice(before, size);
      TidyIsWhole(before);
      i := FirstBadJoin(tidy, rec, Rechunk(before, size), size);
    } else {
      i := DirtyJoinShows(before, size);
      LongerStays(tidy, Rechunk(before, size), RechunkOne(rec, size), rec, size, i);
    }
  }

  /** resize composes, for all legal sizes, exactly when the joints are clean. */
  lemma ResizeComposes(recs: seq<Record>, m: int, n: int)
    requires m % 4 == 0 && n % 4 == 0 && n > 0
    requires recs != [] && Last(recs).Other?
    requires WholeRuns(Blocks(recs))
    ensures Run(Run(recs, m).out, n).out == Run(recs, n).out <==> CleanJoins(Blocks(recs), n)
  {
    var blocks := Blocks(recs);
    StreamIsRechunk(recs, m);
    StreamIsRechunk(recs, n);
    BlocksOfRechunk(blocks, m);
    var middle := Rechunk(blocks, m);
    assert Last(middle).Other? by {
      RunTracks(recs, m);
    }
    StreamIsRechunk(middle, n);
    if CleanJoins(blocks, n) {
      CleanJoinsSuffice(blocks, n);
    } else {
      var i := DirtyJoinShows(blocks, n);
    }
  }

  /** Files whose S3 records all carry data have clean joints, so there resize composes and is idempotent. */
  lemma {:induction false} DataEverywhereIsClean(recs: seq<Record>, size: int)
    requires size > 0 && forall i | 0 <= i < |recs| :: Nonempty(recs[i])
    ensures CleanJoins(Blocks(recs), size) && Tidy(Blocks(recs)) == Blocks(recs)
    ensures forall i | 0 <= i < |Blocks(recs)| :: Nonempty(Blocks(recs)[i])
    decreases |recs|
  {
    if recs != [] {
      var before, rec := Front(recs), Last(recs);
      DataEverywhereIsClean(before, size);
      assert Nonempty(rec);
      OneMoreIsClean(Blocks(before), rec, size);
    }
  }

  lemma OneMoreIsClean(blocks: seq<Record>, rec: Record, size: int)
    requires size > 0 && Nonempty(rec) && forall i | 0 <= i < |blocks| :: Nonempty(blocks[i])
    requires CleanJoins(blocks, size) && Tidy(blocks) == blocks
    ensures var all := AddBlock(blocks, rec);
            CleanJoins(all, size) && Tidy(all) == all && forall i | 0 <= i < |all| :: Nonempty(all[i])
  {
    var all := AddBlock(blocks, rec);
    if blocks != [] && Abuts(Last(blocks), rec) {
      assert Nonempty(Last(blocks));
      FrontIsTidy(blocks);
      LongerRunStaysApart(blocks, rec);
    } else {
      assert Front(all) == blocks && Last(all) == rec;
    }
    hide Tidy, AddBlock, CleanJoin, Joins;
    CleanMore(all, size);
  }

  lemma LongerRunStaysApart(blocks: seq<Record>, rec: Record)
    requires blocks != [] && Abuts(Last(blocks), rec) && Nonempty(rec) && Nonempty(Last(blocks))
    requires !Joins(Front(blocks), Last(blocks))
    ensures var all := AddBlock(blocks, rec);
            && Front(all) == Front(blocks) && Nonempty(Last(all)) && !Joins(Front(all), Last(all))
            && |all| == |blocks| && forall i | 0 <= i < |all| - 1 :: all[i] == blocks[i]
  {
    var all := AddBlock(blocks, rec);
    assert Front(all) == Front(blocks) && Last(all).address == Last(blocks).address;
  }

  /** One more run that does not join. */
  lemma CleanMore(all: seq<Record>, size: int)
    requires size > 0 && all != [] && Nonempty(Last(all)) && !Joins(Front(all), Last(all))
    requires CleanJoins(Front(all), size) && Tidy(Front(all)) == Front(all)
    ensures CleanJoins(all, size) && Tidy(all) == all
  {
    assert AddBlock(Front(all), Last(all)) == Front(all) + [Last(all)] == all;
  }

  lemma {:induction false} TidyIsNonempty(blocks: seq<Record>)
    ensures forall i | 0 <= i < |Tidy(blocks)| :: Nonempty(Tidy(blocks)[i])
    decreases |blocks|
  {
    if blocks != [] {
      TidyIsNonempty(Front(blocks));
    }
  }

  lemma JoinedIsLonger(tidy: seq<Record>, rec: Record)
    requires Joins(tidy, rec) && forall i | 0 <= i < |tidy| :: Nonempty(tidy[i])
    ensures Last(AddBlock(tidy, rec)) != rec
  {
    assert Nonempty(Last(tidy));
    assert |Last(AddBlock(tidy, rec)).payload| == |Last(tidy).payload| + |rec.payload|;
  }

  lemma FrontIsTidy(blocks: seq<Record>)
    requires blocks != [] && Nonempty(Last(blocks)) && Tidy(blocks) == blocks
    ensures Tidy(Front(blocks)) == Front(blocks) && !Joins(Front(blocks), Last(blocks))
  {
    var tidy, last := Tidy(Front(blocks)), Last(blocks);
    TidyIsNonempty(Front(blocks));
    assert AddBlock(tidy, last) == blocks;
    if Joins(tidy, last) {
      JoinedIsLonger(tidy, last);
      assert false;
    } else {
      assert Front(tidy + [last]) == tidy;
    }
  }

}
