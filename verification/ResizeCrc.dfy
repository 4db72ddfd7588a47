/** Re-chunking a file keeps the CRC that its header carries. */
module ResizeCrc {
  import opened Sequences
  import opened SRecord
  import opened Resize
  import opened ResizeMeaning
  import opened ImageCrc

  function RecordBits(rec: Record): Crc.Bits {
    if rec.S3? then LittleEndian(Pad4(rec.payload)) else []
  }

  /** What calculate_crc32 takes the CRC over, from parsed records. */
  function Message(recs: seq<Record>): Crc.Bits {
    Gather(RecordBits, recs)
  }

  lemma PadIsIdempotent(cells: seq<Cell>)
    ensures Pad4(Pad4(cells)) == Pad4(cells)
  {
  }

  /** Payloads join without a trace when the first is a whole number of words. */
  lemma JoinMessage(a: seq<Cell>, b: seq<Cell>)
    requires |a| % 4 == 0
    ensures LittleEndian(Pad4(a + b)) == LittleEndian(Pad4(a)) + LittleEndian(Pad4(b))
  {
    PadTail(a, b);
    FourMore(|a|, |Pad4(b)|);
    LittleEndianConcat(a, Pad4(b));
  }

  lemma BitsAreAdditive()
    ensures Additive(RecordBits)
  {
    forall a: nat, x: seq<Cell>, y: seq<Cell> | |x| % 4 == 0
      ensures RecordBits(S3(a, x + y)) == RecordBits(S3(a, x)) + RecordBits(S3(a + |x|, y))
    {
      JoinMessage(x, y);
    }
  }

  lemma RechunkMessage(blocks: seq<Record>, size: int)
    requires size % 4 == 0
    ensures Message(Rechunk(blocks, size)) == Message(blocks)
  {
    forall i | 0 <= i < |blocks|
      ensures Gather(RecordBits, RechunkOne(blocks[i], size)) == RecordBits(blocks[i])
    {
      if blocks[i].S3? {
        BitsAreAdditive();
        ChunksGather(RecordBits, blocks[i].address, blocks[i].payload, size);
        PadIsIdempotent(blocks[i].payload);
      } else {
        GatherOne(RecordBits, blocks[i]);
      }
    }
    RechunkGather(RecordBits, RecordBits, blocks, size);
  }

  /** Only the last record of a contiguous run may have a length that four does not divide. */
  ghost predicate AlignedInside(recs: seq<Record>) {
    forall i | 0 <= i < |recs| - 1 && Abuts(recs[i], recs[i + 1]) :: |recs[i].payload| % 4 == 0
  }

  /** The run that is being collected ends where its last record ends, and is as long modulo four. */
  lemma {:induction false} LastBlock(recs: seq<Record>)
    requires recs != [] && AlignedInside(recs)
    ensures Last(Blocks(recs)).S3? == Last(recs).S3?
    ensures Last(recs).S3? ==> End(Last(Blocks(recs))) == End(Last(recs))
                               && |Last(Blocks(recs)).payload| % 4 == |Last(recs).payload| % 4
    decreases |recs|
  {
    var before, rec := Front(recs), Last(recs);
    if before != [] {
      assert AlignedInside(before) by {
        assert forall i | 0 <= i < |before| :: before[i] == recs[i];
      }
      LastBlock(before);
      if Abuts(Last(Blocks(before)), rec) {
        var i := |recs| - 2;
        assert recs[i] == Last(before) && recs[i + 1] == rec;
        var run := |Last(Blocks(before)).payload|;
        assert |Last(Blocks(recs)).payload| == run + |rec.payload|;
        FourAdd(run, |rec.payload|);
      }
    }
  }

  lemma {:induction false} BlocksMessage(recs: seq<Record>)
    requires AlignedInside(recs)
    ensures Message(Blocks(recs)) == Message(recs)
    decreases |recs|
  {
    if recs != [] {
      var before, rec := Front(recs), Last(recs);
      assert AlignedInside(before) by {
        assert forall i | 0 <= i < |before| :: before[i] == recs[i];
      }
      BlocksMessage(before);
      var blocks := Blocks(before);
      if blocks != [] && Abuts(Last(blocks), rec) {
        LastBlock(before);
        assert recs[|recs| - 2] == Last(before) && recs[|recs| - 1] == rec;
        JoinMessage(Last(blocks).payload, rec.payload);
      }
      AddBlockGather(RecordBits, blocks, rec);
    }
  }

  /** On records: the message of the CRC is kept, however the runs are cut. */
  lemma ResizeKeepsMessage(recs: seq<Record>, size: int)
    requires size % 4 == 0 && Unwritten(recs, size) == 0 && AlignedInside(recs)
    ensures Message(Run(recs, size).out) == Message(recs)
  {
    StreamIsRechunk(recs, size);
    RechunkMessage(Blocks(recs), size);
    BlocksMessage(recs);
  }
}
