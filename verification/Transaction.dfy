/** One write transaction: what it plans, the operations it issues, and the state they reach. */
module Transaction {
  import opened Basics
  import opened IndexCodec
  import opened Crypto
  import opened Disk
  import opened Ledger

  const MAX_CHUNK_PLAINTEXT_LEN: nat := 0x40_0000_0000 - 64
  const FILL_BUFFER_LEN: nat := 8192

  datatype NewChunk = NewChunk(fileId: FileId, sequenceNumber: u64, plaintext: seq<byte>)

  datatype Request = Request(chunks: seq<NewChunk>, completed: seq<CompleteEntry>)

  datatype BlobConfig = BlobConfig(
    initialLeadingGap: u64, initialTrailingGap: u64,
    relocationLeadingPadding: u64, relocationTrailingPadding: u64,
    readerRetryBudget: nat)

  // The plan

  function ChunkBytes(chunks: seq<NewChunk>): nat {
    if chunks == [] then 0
    else ChunkBytes(chunks[..|chunks| - 1]) + |chunks[|chunks| - 1].plaintext| + FRAME_OVERHEAD
  }

  ghost predicate ChunksFit(chunks: seq<NewChunk>) {
    forall i :: 0 <= i < |chunks| ==> |chunks[i].plaintext| <= MAX_CHUNK_PLAINTEXT_LEN
  }

  function EntryBytes(req: Request): nat {
    CHUNK_ENTRY_LEN * |req.chunks| + COMPLETE_ENTRY_LEN * |req.completed|
  }

  function NewChunkRecord(keys: Keys, offset: u64, c: NewChunk): (r: Record)
    requires |c.plaintext| < U64_LIMIT
  {
    ChunkRecord(ChunkEntry(c.fileId, c.sequenceNumber, offset, |c.plaintext|, keys.hash(c.plaintext)), c.plaintext)
  }

  /** Records of new chunks whose frames are packed from `tail` on. */
  function ChunkRecords(keys: Keys, tail: nat, chunks: seq<NewChunk>): (rs: seq<Record>)
    requires tail + ChunkBytes(chunks) < U64_LIMIT
    ensures |rs| == |chunks|
  {
    if chunks == [] then []
    else
      var n := |chunks| - 1;
      ChunkRecords(keys, tail, chunks[..n]) + [NewChunkRecord(keys, tail + ChunkBytes(chunks[..n]), chunks[n])]
  }

  /** The record the plan makes of the last chunk. */
  function LastRecord(keys: Keys, tail: nat, chunks: seq<NewChunk>): Record
    requires tail + ChunkBytes(chunks) < U64_LIMIT && chunks != []
  {
    var n := |chunks| - 1;
    NewChunkRecord(keys, tail + ChunkBytes(chunks[..n]), chunks[n])
  }

  function CompleteRecords(completed: seq<CompleteEntry>): (rs: seq<Record>) {
    seq(|completed|, i requires 0 <= i < |completed| => CompleteRecord(completed[i]))
  }

  function FrameOf(keys: Keys, r: Record, nonce: Nonce): (frame: seq<byte>)
    ensures |frame| == FrameLen(r)
  {
    if r.ChunkRecord? then SealFrame(keys, ChunkAad(r.chunk), nonce, r.plaintext) else []
  }

  function Frames(keys: Keys, ent: Entropy, rs: seq<Record>): seq<seq<byte>> {
    seq(|rs|, i requires 0 <= i < |rs| => FrameOf(keys, rs[i], ent.nonce(i)))
  }

  // Consecutive writes

  function Join(pieces: seq<seq<byte>>): seq<byte> {
    if pieces == [] then [] else Join(pieces[..|pieces| - 1]) + pieces[|pieces| - 1]
  }

  function PieceOps(offset: nat, pieces: seq<seq<byte>>): seq<Op> {
    if pieces == [] then []
    else
      var n := |pieces| - 1;
      PieceOps(offset, pieces[..n]) + [Write(offset + |Join(pieces[..n])|, pieces[n])]
  }

  function FillBuffer(start: nat, n: nat, fill: nat -> byte): (buffer: seq<byte>)
    ensures |buffer| == n
  {
    seq(n, i requires 0 <= i < n => fill(start + i))
  }

  /** `n` random bytes for position `start` on, in the buffer-sized pieces they are written in. */
  function FillPieces(start: nat, n: nat, fill: nat -> byte): seq<seq<byte>>
    decreases n
  {
    if n == 0 then []
    else
      var m := Min(n, FILL_BUFFER_LEN);
      [FillBuffer(start, m, fill)] + FillPieces(start + m, n - m, fill)
  }

  lemma {:induction false} JoinAppend(a: seq<seq<byte>>, b: seq<seq<byte>>)
    ensures Join(a + b) == Join(a) + Join(b)
  {
    if b == [] {
      assert a + b == a;
    } else {
      var n := |b| - 1;
      JoinAppend(a, b[..n]);
      assert (a + b)[..|a| + n] == a + b[..n];
    }
  }

  lemma {:induction false} FillLength(start: nat, n: nat, fill: nat -> byte)
    ensures |Join(FillPieces(start, n, fill))| == n
    decreases n
  {
    if n == 0 {
    } else {
      FillSplit(start, n, fill);
      FillLength(start + Min(n, FILL_BUFFER_LEN), n - Min(n, FILL_BUFFER_LEN), fill);
    }
  }

  lemma FillSplit(start: nat, n: nat, fill: nat -> byte)
    requires n > 0
    ensures var m := Min(n, FILL_BUFFER_LEN);
      Join(FillPieces(start, n, fill)) == FillBuffer(start, m, fill) + Join(FillPieces(start + m, n - m, fill))
  {
    var m := Min(n, FILL_BUFFER_LEN);
    var first := [FillBuffer(start, m, fill)];
    JoinAppend(first, FillPieces(start + m, n - m, fill));
    assert Join(first) == Join(first[..0]) + first[0];
  }

  /** Each byte filled in is the random one drawn for its position. */
  lemma {:induction false} FillDrawn(start: nat, n: nat, fill: nat -> byte, i: nat)
    requires i < n
    ensures |Join(FillPieces(start, n, fill))| == n && Join(FillPieces(start, n, fill))[i] == fill(start + i)
    decreases n
  {
    var m := Min(n, FILL_BUFFER_LEN);
    FillLength(start, n, fill);
    FillSplit(start, n, fill);
    hide FillPieces, Join;
    if i >= m {
      FillDrawn(start + m, n - m, fill, i - m);
    }
  }

  lemma FillStep(pieces: seq<seq<byte>>, start: nat, n: nat, fill: nat -> byte)
    requires n > 0
    ensures var m := Min(n, FILL_BUFFER_LEN);
      pieces + FillPieces(start, n, fill)
        == pieces + [FillBuffer(start, m, fill)] + FillPieces(start + m, n - m, fill)
  {
  }

  lemma FillDone(pieces: seq<seq<byte>>, start: nat, fill: nat -> byte)
    ensures pieces + FillPieces(start, 0, fill) == pieces
  {
  }

  lemma OverwriteTwice(bytes: seq<byte>, offset: nat, a: seq<byte>, b: seq<byte>)
    requires offset <= |bytes|
    ensures Overwrite(Overwrite(bytes, offset, a), offset + |a|, b) == Overwrite(bytes, offset, a + b)
  {
  }

  /** Consecutive writes have the effect of one write of everything. */
  lemma {:induction false} PieceOpsEffect(d: DiskState, offset: nat, pieces: seq<seq<byte>>)
    requires offset <= |d.bytes|
    ensures ApplyAll(d, PieceOps(offset, pieces)) == Apply(d, Write(offset, Join(pieces)))
  {
    if pieces == [] {
      assert Overwrite(d.bytes, offset, []) == d.bytes;
    } else {
      var n := |pieces| - 1;
      PieceOpsEffect(d, offset, pieces[..n]);
      ApplyOne(d, PieceOps(offset, pieces[..n]), Write(offset + |Join(pieces[..n])|, pieces[n]));
      OverwriteTwice(d.bytes, offset, Join(pieces[..n]), pieces[n]);
    }
  }

  lemma PieceStep(d: DiskState, offset: nat, pieces: seq<seq<byte>>, i: nat)
    requires i < |pieces|
    ensures var op := Write(offset + |Join(pieces[..i])|, pieces[i]);
      && PieceOps(offset, pieces[..i + 1]) == PieceOps(offset, pieces[..i]) + [op]
      && ApplyAll(d, PieceOps(offset, pieces[..i + 1])) == Apply(ApplyAll(d, PieceOps(offset, pieces[..i])), op)
    ensures |Join(pieces[..i + 1])| == |Join(pieces[..i])| + |pieces[i]| <= |Join(pieces)|
  {
    assert pieces[..i + 1][..i] == pieces[..i];
    assert pieces[..i + 1] + pieces[i + 1..] == pieces;
    JoinAppend(pieces[..i + 1], pieces[i + 1..]);
    ApplyOne(d, PieceOps(offset, pieces[..i]), Write(offset + |Join(pieces[..i])|, pieces[i]));
  }

  lemma PieceSnoc(d: DiskState, offset: nat, pieces: seq<seq<byte>>, piece: seq<byte>)
    ensures var op := Write(offset + |Join(pieces)|, piece);
      && PieceOps(offset, pieces + [piece]) == PieceOps(offset, pieces) + [op]
      && ApplyAll(d, PieceOps(offset, pieces + [piece])) == Apply(ApplyAll(d, PieceOps(offset, pieces)), op)
    ensures |Join(pieces + [piece])| == |Join(pieces)| + |piece|
  {
    var all := pieces + [piece];
    assert all[..|pieces|] == pieces && all[..|pieces| + 1] == all;
    PieceStep(d, offset, all, |pieces|);
  }

  lemma {:induction false} PieceOpsTouch(offset: nat, pieces: seq<seq<byte>>, p: int)
    ensures Touches(PieceOps(offset, pieces), p) <==> offset <= p < offset + |Join(pieces)|
    ensures forall op :: op in PieceOps(offset, pieces) ==> op.Write?
  {
    if pieces == [] {
    } else {
      var n := |pieces| - 1;
      PieceOpsTouch(offset, pieces[..n], p);
      TouchesAppend(PieceOps(offset, pieces[..n]), [Write(offset + |Join(pieces[..n])|, pieces[n])], p);
      TouchesOne(Write(offset + |Join(pieces[..n])|, pieces[n]), p);
    }
  }

  lemma TouchesOne(op: Op, p: int)
    ensures Touches([op], p) <==> op.Write? && op.offset <= p < op.offset + |op.data|
  {
    assert [op][0] == op;
  }

  lemma TouchesAppend(a: seq<Op>, b: seq<Op>, p: int)
    ensures Touches(a + b, p) <==> Touches(a, p) || Touches(b, p)
  {
    if Touches(a, p) {
      var i :| 0 <= i < |a| && a[i].Write? && a[i].offset <= p < a[i].offset + |a[i].data|;
      assert (a + b)[i] == a[i];
    }
    if Touches(b, p) {
      var i :| 0 <= i < |b| && b[i].Write? && b[i].offset <= p < b[i].offset + |b[i].data|;
      assert (a + b)[|a| + i] == b[i];
    }
  }

  // Facts about planned records

  lemma PlacedOne(keys: Keys, rs: seq<Record>, r: Record)
    requires Placed(keys, rs)
    requires r.ChunkRecord? ==> r.chunk.offset == Tail(rs) && r.chunk.plaintextLength == |r.plaintext|
                                && r.chunk.contentHash == keys.hash(r.plaintext)
    ensures Placed(keys, rs + [r]) && Tail(rs + [r]) == Tail(rs) + FrameLen(r)
  {
    assert (rs + [r])[..|rs|] == rs;
  }

  lemma {:induction false} PlanPlaced(keys: Keys, rs: seq<Record>, chunks: seq<NewChunk>)
    requires Placed(keys, rs) && Tail(rs) + ChunkBytes(chunks) < U64_LIMIT
    ensures var all := rs + ChunkRecords(keys, Tail(rs), chunks);
      Placed(keys, all) && Tail(all) == Tail(rs) + ChunkBytes(chunks)
  {
    if chunks == [] {
      assert rs + ChunkRecords(keys, Tail(rs), chunks) == rs;
    } else {
      var n := |chunks| - 1;
      var part, r := ChunkRecords(keys, Tail(rs), chunks[..n]), LastRecord(keys, Tail(rs), chunks);
      PlanPlaced(keys, rs, chunks[..n]);
      hide Placed;
      hide Tail;
      PlacedOne(keys, rs + part, r);
      assert rs + ChunkRecords(keys, Tail(rs), chunks) == rs + part + [r];
    }
  }

  lemma {:induction false} CompletesPlaced(keys: Keys, rs: seq<Record>, completed: seq<CompleteEntry>)
    requires Placed(keys, rs)
    ensures Placed(keys, rs + CompleteRecords(completed))
    ensures Tail(rs + CompleteRecords(completed)) == Tail(rs)
  {
    if completed == [] {
      assert rs + CompleteRecords(completed) == rs;
    } else {
      var n := |completed| - 1;
      CompletesPlaced(keys, rs, completed[..n]);
      hide Placed, Tail;
      PlacedOne(keys, rs + CompleteRecords(completed[..n]), CompleteRecord(completed[n]));
      assert rs + CompleteRecords(completed)
          == rs + CompleteRecords(completed[..n]) + [CompleteRecord(completed[n])];
    }
  }

  lemma {:induction false} CollectAll(es: seq<Entry>)
    ensures (forall i :: 0 <= i < |es| ==> es[i].Chunk?) ==> |Collect(es).chunks| == |es| && Collect(es).completed == []
    ensures (forall i :: 0 <= i < |es| ==> es[i].Complete?) ==> |Collect(es).completed| == |es| && Collect(es).chunks == []
  {
    if es == [] {
    } else {
      CollectAll(es[..|es| - 1]);
    }
  }

  lemma {:induction false} ChunkRecordsKind(keys: Keys, tail: nat, chunks: seq<NewChunk>)
    requires tail + ChunkBytes(chunks) < U64_LIMIT
    ensures forall r :: r in ChunkRecords(keys, tail, chunks) ==> r.ChunkRecord?
  {
    if chunks == [] {
    } else {
      ChunkRecordsKind(keys, tail, chunks[..|chunks| - 1]);
    }
  }

  lemma FramesSnoc(keys: Keys, ent: Entropy, tail: nat, chunks: seq<NewChunk>)
    requires tail + ChunkBytes(chunks) < U64_LIMIT && chunks != []
    ensures var n := |chunks| - 1;
      Join(Frames(keys, ent, ChunkRecords(keys, tail, chunks)))
        == Join(Frames(keys, ent, ChunkRecords(keys, tail, chunks[..n])))
           + FrameOf(keys, LastRecord(keys, tail, chunks), ent.nonce(n))
  {
    var n := |chunks| - 1;
    var rs := ChunkRecords(keys, tail, chunks[..n]);
    var r := LastRecord(keys, tail, chunks);
    assert ChunkRecords(keys, tail, chunks) == rs + [r];
    var part, frame := Frames(keys, ent, rs), FrameOf(keys, r, ent.nonce(n));
    assert Frames(keys, ent, rs + [r]) == part + [frame];
    JoinSnoc(part, frame);
  }

  lemma JoinSnoc(pieces: seq<seq<byte>>, piece: seq<byte>)
    ensures Join(pieces + [piece]) == Join(pieces) + piece
  {
    assert (pieces + [piece])[..|pieces|] == pieces;
  }

  lemma SealedFrameOn(keys: Keys, bytes: seq<byte>, r: Record, nonce: Nonce)
    requires r.ChunkRecord?
    requires r.chunk.plaintextLength == |r.plaintext| && r.chunk.contentHash == keys.hash(r.plaintext)
    requires r.chunk.offset + FrameLen(r) <= |bytes|
    requires bytes[r.chunk.offset..r.chunk.offset + FrameLen(r)] == FrameOf(keys, r, nonce)
    ensures FrameOn(keys, bytes, r)
  {
    DecryptSealed(keys, r.chunk, nonce, r.plaintext);
  }

  lemma {:induction false} JoinedFrames(keys: Keys, ent: Entropy, tail: nat, chunks: seq<NewChunk>)
    requires tail + ChunkBytes(chunks) < U64_LIMIT
    ensures |Join(Frames(keys, ent, ChunkRecords(keys, tail, chunks)))| == ChunkBytes(chunks)
  {
    if chunks == [] {
    } else {
      FramesSnoc(keys, ent, tail, chunks);
      JoinedFrames(keys, ent, tail, chunks[..|chunks| - 1]);
    }
  }

  /** Frames written from `tail` on put every planned chunk on the file. */
  lemma {:induction false} PlannedFramesOn(
      keys: Keys, ent: Entropy, tail: nat, chunks: seq<NewChunk>, bytes: seq<byte>)
    requires tail + ChunkBytes(chunks) < U64_LIMIT && tail + ChunkBytes(chunks) <= |bytes|
    requires bytes[tail..tail + ChunkBytes(chunks)] == Join(Frames(keys, ent, ChunkRecords(keys, tail, chunks)))
    ensures FramesOn(keys, bytes, ChunkRecords(keys, tail, chunks))
  {
    if chunks == [] {
    } else {
      var n := |chunks| - 1;
      var r := LastRecord(keys, tail, chunks);
      var part := Join(Frames(keys, ent, ChunkRecords(keys, tail, chunks[..n])));
      FramesSnoc(keys, ent, tail, chunks);
      JoinedFrames(keys, ent, tail, chunks[..n]);
      SplitSlice(bytes, tail, part, FrameOf(keys, r, ent.nonce(n)));
      PlannedFramesOn(keys, ent, tail, chunks[..n], bytes);
      SealedFrameOn(keys, bytes, r, ent.nonce(n));
      assert ChunkRecords(keys, tail, chunks) == ChunkRecords(keys, tail, chunks[..n]) + [r];
    }
  }

  lemma SplitSlice(bytes: seq<byte>, at: nat, a: seq<byte>, b: seq<byte>)
    requires at + |a| + |b| <= |bytes| && bytes[at..at + |a| + |b|] == a + b
    ensures bytes[at..at + |a|] == a && bytes[at + |a|..at + |a| + |b|] == b
  {
    var whole := bytes[at..at + |a| + |b|];
    assert bytes[at..at + |a|] == whole[..|a|];
    assert bytes[at + |a|..at + |a| + |b|] == whole[|a|..];
  }
}
