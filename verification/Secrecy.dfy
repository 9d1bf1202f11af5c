/** What a file shows of what is stored on it: never more than where the key stream happens to be zero. */
module Secrecy {
  import opened Basics
  import opened Crypto
  import opened Disk
  import opened Ledger
  import opened Transaction
  import opened Commits
  import opened Crash

  /** Each byte of a committed index is combined with the index key stream at its own place, so that it
      shows exactly where that stream is zero. */
  lemma IndexByteShown(keys: Keys, d: DiskState, h: History, i: nat)
    requires Inv(keys, d, h) && i < Last(h).length
    ensures |Plain(h.records)| == Last(h).length && Last(h).offset + i < |d.bytes|
    ensures var shown, plain := d.bytes[Last(h).offset + i], Plain(h.records)[i];
      && shown == Xor(plain, keys.indexStream(i))
      && (shown == plain <==> keys.indexStream(i) == 0)
  {
    hide SlotOk, FramesOn, RegionsIn, Placed, StreamXor;
    assert d.bytes[Last(h).offset + i] == Cipher(keys, h.records)[i];
    StreamXorAt(keys.indexStream, 0, Plain(h.records), i);
  }

  lemma SliceStart(bytes: seq<byte>, at: nat, n: nat, m: nat)
    requires m <= n && at + n <= |bytes|
    ensures bytes[at..at + n][..m] == bytes[at..at + m]
  {
  }

  /** Each byte of a committed chunk is combined with its file's key stream for the nonce its frame begins
      with, so that it shows exactly where that stream is zero. */
  lemma FrameByteShown(keys: Keys, d: DiskState, h: History, j: nat, i: nat)
    requires Readable(keys, d, h) && j < |h.records| && h.records[j].ChunkRecord? && i < |h.records[j].plaintext|
    ensures var r := h.records[j];
      var at := r.chunk.offset;
      && at + 24 + i < |d.bytes|
      && var nonce: Nonce := d.bytes[at..at + 24];
         var shown, stream := d.bytes[at + 24 + i], keys.fileStream(r.chunk.fileId, nonce, i);
         && shown == Xor(r.plaintext[i], stream)
         && (shown == r.plaintext[i] <==> stream == 0)
  {
    hide HistoryOk, SlotOk, RegionsIn, DecryptChunk, SealFrame;
    var r := h.records[j];
    assert FrameOn(keys, d.bytes, r);
    var frame := d.bytes[r.chunk.offset..r.chunk.offset + FrameLen(r)];
    DecryptsOnlySealed(keys, r.chunk, frame, r.plaintext);
    var nonce: Nonce := frame[..NONCE_LEN];
    FrameLaidOut(keys, ChunkAad(r.chunk), nonce, r.plaintext);
    SliceStart(d.bytes, r.chunk.offset, FrameLen(r), 24);
  }

  /** Each planned frame lies at its record's offset, under its own nonce. */
  lemma {:induction false} PlannedFrameAt(keys: Keys, ent: Entropy, tail: nat, chunks: seq<NewChunk>, bytes: seq<byte>,
                                          j: nat)
    requires tail + ChunkBytes(chunks) < U64_LIMIT && tail + ChunkBytes(chunks) <= |bytes| && j < |chunks|
    requires bytes[tail..tail + ChunkBytes(chunks)] == Join(Frames(keys, ent, ChunkRecords(keys, tail, chunks)))
    ensures var r := ChunkRecords(keys, tail, chunks)[j];
      && r.ChunkRecord? && r.chunk.offset + FrameLen(r) <= |bytes|
      && bytes[r.chunk.offset..r.chunk.offset + FrameLen(r)] == FrameOf(keys, r, ent.nonce(j))
  {
    var n := |chunks| - 1;
    hide Frames, Join, FrameOf, ChunkBytes;
    LastFrameAt(keys, ent, tail, chunks, bytes);
    FewerBytes(chunks);
    if j < n {
      PlannedFrameAt(keys, ent, tail, chunks[..n], bytes, j);
    }
  }

  lemma FewerBytes(chunks: seq<NewChunk>)
    requires chunks != []
    ensures ChunkBytes(chunks[..|chunks| - 1]) <= ChunkBytes(chunks)
  {
  }

  lemma LastFrameAt(keys: Keys, ent: Entropy, tail: nat, chunks: seq<NewChunk>, bytes: seq<byte>)
    requires chunks != [] && tail + ChunkBytes(chunks) < U64_LIMIT && tail + ChunkBytes(chunks) <= |bytes|
    requires bytes[tail..tail + ChunkBytes(chunks)] == Join(Frames(keys, ent, ChunkRecords(keys, tail, chunks)))
    ensures var n, r := |chunks| - 1, LastRecord(keys, tail, chunks);
      && r.ChunkRecord? && r.chunk.offset + FrameLen(r) <= |bytes|
      && bytes[r.chunk.offset..r.chunk.offset + FrameLen(r)] == FrameOf(keys, r, ent.nonce(n))
      && bytes[tail..tail + ChunkBytes(chunks[..n])] == Join(Frames(keys, ent, ChunkRecords(keys, tail, chunks[..n])))
  {
    var n := |chunks| - 1;
    var r := LastRecord(keys, tail, chunks);
    hide Frames, Join, FrameOf, ChunkRecords, SealFrame;
    assert ChunkBytes(chunks) == ChunkBytes(chunks[..n]) + FrameLen(r);
    hide ChunkBytes;
    FramesSnoc(keys, ent, tail, chunks);
    JoinedFrames(keys, ent, tail, chunks[..n]);
    SplitSlice(bytes, tail, Join(Frames(keys, ent, ChunkRecords(keys, tail, chunks[..n]))), FrameOf(keys, r, ent.nonce(n)));
  }

  lemma FramesLanded(t: Tx)
    requires t.Ready()
    ensures var bytes := ApplyAll(t.d, t.Script()).bytes;
      && t.Tail() + ChunkBytes(t.req.chunks) < U64_LIMIT && t.Tail() + ChunkBytes(t.req.chunks) <= |bytes|
      && t.NewChunkRecords() == ChunkRecords(t.keys, t.Tail(), t.req.chunks)
      && bytes[t.Tail()..t.Tail() + ChunkBytes(t.req.chunks)]
         == Join(Frames(t.keys, t.ent, ChunkRecords(t.keys, t.Tail(), t.req.chunks)))
  {
    hide Inv, ApplyAll, ChunkRecords, ChunkBytes, Join, Frames, Cipher, Tx.Body, Tx.Script, Tx.NewLocator, Committing,
         Tx.Relocates, Tx.RequiredEof, Tx.Records, Ledger.Tail;
    BodyStages(t);
    FinalState(t);
  }

  /** Every frame a transaction writes begins with a nonce of its own, the one drawn for it. */
  lemma NoncesDrawn(t: Tx, j: nat)
    requires t.Ready() && j < |t.req.chunks|
    ensures var r, bytes := t.NewChunkRecords()[j], ApplyAll(t.d, t.Script()).bytes;
      && r.ChunkRecord? && r.chunk.offset + FrameLen(r) <= |bytes|
      && bytes[r.chunk.offset..r.chunk.offset + 24] == t.ent.nonce(j)
  {
    hide *;
    FramesLanded(t);
    PlannedFrameAt(t.keys, t.ent, t.Tail(), t.req.chunks, ApplyAll(t.d, t.Script()).bytes, j);
    var r := t.NewChunkRecords()[j];
    SealedBegins(t.keys, r, t.ent.nonce(j), ApplyAll(t.d, t.Script()).bytes);
  }

  lemma SealedBegins(keys: Keys, r: Record, nonce: Nonce, bytes: seq<byte>)
    requires r.ChunkRecord? && r.chunk.offset + FrameLen(r) <= |bytes|
    requires bytes[r.chunk.offset..r.chunk.offset + FrameLen(r)] == FrameOf(keys, r, nonce)
    ensures bytes[r.chunk.offset..r.chunk.offset + 24] == nonce
  {
    FrameLaidOut(keys, ChunkAad(r.chunk), nonce, r.plaintext);
    SliceStart(bytes, r.chunk.offset, FrameLen(r), 24);
  }
}
