/** Where a blob's bytes go: the accounting that `layout_stats` reports. */
module Layout {
  import opened IndexCodec
  import opened Crypto
  import opened Disk
  import opened Ledger

  datatype LayoutStats = LayoutStats(
    fileSize: nat, bodyBytes: nat, generation: nat, chunkCount: nat, completeCount: nat,
    chunkPlaintextBytes: nat, chunkFrameBytes: nat, gapBeforeFirstChunk: nat, interChunkGap: nat,
    dataTail: nat, leadingGap: nat, indexOffset: nat, indexLength: nat, indexPlaintextBytes: nat,
    trailingGap: nat, unclassified: nat)

  function PlaintextSum(chunks: seq<ChunkEntry>): nat {
    if chunks == [] then 0 else PlaintextSum(chunks[..|chunks| - 1]) + chunks[|chunks| - 1].plaintextLength
  }

  function FrameSum(chunks: seq<ChunkEntry>): nat {
    if chunks == [] then 0 else FrameSum(chunks[..|chunks| - 1]) + chunks[|chunks| - 1].plaintextLength + FRAME_OVERHEAD
  }

  /** Each frame starts where the previous one ends. */
  ghost predicate Packed(chunks: seq<ChunkEntry>) {
    forall i :: 0 <= i < |chunks| ==> chunks[i].offset == FRONT_MATTER_LEN + FrameSum(chunks[..i])
  }

  /** Where the frames listed end. */
  function EndOf(chunks: seq<ChunkEntry>): nat {
    if chunks == [] then FRONT_MATTER_LEN
    else chunks[|chunks| - 1].offset + chunks[|chunks| - 1].plaintextLength + FRAME_OVERHEAD
  }

  /** Each frame starts where the previous one ends, or later. */
  ghost predicate Spaced(chunks: seq<ChunkEntry>) {
    forall i :: 0 <= i < |chunks| ==> EndOf(chunks[..i]) <= chunks[i].offset
  }

  lemma PackedIsSpaced(chunks: seq<ChunkEntry>)
    requires Packed(chunks)
    ensures Spaced(chunks) && EndOf(chunks) == FRONT_MATTER_LEN + FrameSum(chunks)
  {
    forall i | 0 <= i <= |chunks| ensures EndOf(chunks[..i]) == FRONT_MATTER_LEN + FrameSum(chunks[..i]) {
      if i > 0 {
        SumSnoc(chunks, i - 1);
      }
    }
    assert chunks[..|chunks|] == chunks;
  }

  /** Frames that do not overlap end in order. */
  lemma {:induction false} SpacedPrefix(chunks: seq<ChunkEntry>, i: nat)
    requires Spaced(chunks) && i <= |chunks|
    ensures EndOf(chunks[..i]) <= EndOf(chunks)
    ensures FRONT_MATTER_LEN + FrameSum(chunks[..i]) <= EndOf(chunks[..i])
    decreases |chunks| - i
  {
    SpacedSum(chunks, i);
    if i == |chunks| {
      assert chunks[..i] == chunks;
    } else {
      SpacedPrefix(chunks, i + 1);
    }
  }

  lemma {:induction false} SpacedSum(chunks: seq<ChunkEntry>, i: nat)
    requires Spaced(chunks) && i <= |chunks|
    ensures FRONT_MATTER_LEN + FrameSum(chunks[..i]) <= EndOf(chunks[..i])
  {
    if i > 0 {
      SumSnoc(chunks, i - 1);
      SpacedSum(chunks, i - 1);
    }
  }

  /** One more frame ends where that frame does, still before the last one's end. */
  lemma SpacedStep(chunks: seq<ChunkEntry>, i: nat)
    requires Spaced(chunks) && i < |chunks|
    ensures EndOf(chunks[..i]) <= chunks[i].offset
    ensures EndOf(chunks[..i + 1]) == chunks[i].offset + chunks[i].plaintextLength + FRAME_OVERHEAD
    ensures EndOf(chunks[..i + 1]) <= EndOf(chunks)
    ensures FRONT_MATTER_LEN + FrameSum(chunks[..i]) <= EndOf(chunks[..i])
    ensures FrameSum(chunks[..i + 1]) == FrameSum(chunks[..i]) + chunks[i].plaintextLength + FRAME_OVERHEAD
  {
    SumSnoc(chunks, i);
    SpacedPrefix(chunks, i + 1);
    SpacedSum(chunks, i);
  }

  function OffsetKey(c: ChunkEntry): nat {
    c.offset
  }

  lemma {:induction false} FrameSumPrefix(chunks: seq<ChunkEntry>, n: nat)
    requires n <= |chunks|
    ensures FrameSum(chunks[..n]) <= FrameSum(chunks) && PlaintextSum(chunks[..n]) <= FrameSum(chunks[..n])
    decreases |chunks|, n
  {
    if n == |chunks| {
      assert chunks[..n] == chunks;
      if n > 0 {
        FrameSumPrefix(chunks, n - 1);
        assert chunks[..n - 1] == chunks[..|chunks| - 1];
      }
    } else {
      var init := chunks[..|chunks| - 1];
      assert init[..n] == chunks[..n];
      FrameSumPrefix(init, n);
    }
  }

  lemma SumSnoc(chunks: seq<ChunkEntry>, i: nat)
    requires i < |chunks|
    ensures FrameSum(chunks[..i + 1]) == FrameSum(chunks[..i]) + chunks[i].plaintextLength + FRAME_OVERHEAD
    ensures PlaintextSum(chunks[..i + 1]) == PlaintextSum(chunks[..i]) + chunks[i].plaintextLength
    ensures FrameSum(chunks[..i + 1]) <= FrameSum(chunks)
    ensures PlaintextSum(chunks[..i + 1]) <= FrameSum(chunks)
  {
    assert chunks[..i + 1][..i] == chunks[..i];
    FrameSumPrefix(chunks, i + 1);
  }

  /** A committed index lists its frames packed and in order of offset. */
  lemma NothingPacked()
    ensures Packed(IndexOf([]).chunks) && FrameSum(IndexOf([]).chunks) == 0
  {
  }

  lemma PackedSnoc(chunks: seq<ChunkEntry>, c: ChunkEntry)
    requires Packed(chunks) && c.offset == FRONT_MATTER_LEN + FrameSum(chunks)
    ensures Packed(chunks + [c]) && FrameSum(chunks + [c]) == FrameSum(chunks) + c.plaintextLength + FRAME_OVERHEAD
  {
    var all := chunks + [c];
    assert all[..|chunks|] == chunks;
    forall i | 0 <= i < |all| ensures all[i].offset == FRONT_MATTER_LEN + FrameSum(all[..i]) {
      if i < |chunks| {
        assert all[..i] == chunks[..i];
      }
    }
  }

  lemma {:induction false} IndexPacked(keys: Keys, rs: seq<Record>)
    requires Placed(keys, rs)
    ensures Packed(IndexOf(rs).chunks) && FrameSum(IndexOf(rs).chunks) == Tail(rs) - FRONT_MATTER_LEN
  {
    if rs == [] {
      NothingPacked();
    } else {
      var n := |rs| - 1;
      assert rs == rs[..n] + [rs[n]];
      hide IndexOf, Packed, FrameSum;
      IndexPacked(keys, rs[..n]);
      IndexSnoc(rs[..n], rs[n]);
      if rs[n].ChunkRecord? {
        PackedSnoc(IndexOf(rs[..n]).chunks, rs[n].chunk);
      }
    }
  }

  lemma PackedOrder(chunks: seq<ChunkEntry>, i: nat, j: nat)
    requires Packed(chunks) && i <= j < |chunks|
    ensures chunks[i].offset <= chunks[j].offset
  {
    assert chunks[..j][..i] == chunks[..i];
    FrameSumPrefix(chunks[..j], i);
  }

  /** What the statistics of a committed blob satisfy: every gap between chunks is empty, and the
      front matter, frames, gaps and index add up to the file. */
  ghost predicate Accounted(keys: Keys, d: DiskState, h: History, s: LayoutStats)
    requires h.commits != []
  {
    && s.fileSize == |d.bytes|
    && s.generation == |h.commits| - 1
    && s.chunkCount == |IndexOf(h.records).chunks| && s.completeCount == |IndexOf(h.records).completed|
    && s.chunkFrameBytes == s.chunkPlaintextBytes + FRAME_OVERHEAD * s.chunkCount
    && s.gapBeforeFirstChunk == 0 && s.interChunkGap == 0 && s.unclassified == 0
    && s.dataTail == FRONT_MATTER_LEN + s.chunkFrameBytes == Tail(h.records)
    && s.indexOffset == Last(h).offset == s.dataTail + s.leadingGap
    && s.indexLength == s.indexPlaintextBytes == CHUNK_ENTRY_LEN * s.chunkCount + COMPLETE_ENTRY_LEN * s.completeCount
    && s.indexOffset + s.indexLength + s.trailingGap == s.fileSize
    && FRONT_MATTER_LEN + s.chunkFrameBytes + s.leadingGap + s.indexLength + s.trailingGap == s.fileSize
  }

  lemma {:induction false} FrameSumCount(chunks: seq<ChunkEntry>)
    ensures FrameSum(chunks) == PlaintextSum(chunks) + FRAME_OVERHEAD * |chunks|
  {
    if chunks == [] {
    } else {
      FrameSumCount(chunks[..|chunks| - 1]);
    }
  }
}
