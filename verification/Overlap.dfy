/** How a blob comes to a transaction that a crash can cut so that its index is lost. */
module Overlap {
  import opened Basics
  import opened IndexCodec
  import opened Crypto
  import opened Disk
  import opened Ledger
  import opened Transaction
  import opened Commits
  import opened Crash
  import opened Handles
  import opened Recovery
  import opened Blobs

  /** Chunks that do not fit before the index are written over it: whenever an index is not empty, a
      relocation they force is not atomic. */
  lemma ChunksForceOverlap(t: Tx)
    requires t.Ready() && Last(t.h).length > 0 && t.Tail() + t.ChunkLen() > Last(t.h).offset
    ensures t.Relocates() && !Atomic(t)
  {
    hide HistoryOk, FramesOn, RegionsIn, SlotOk, Cipher;
  }

  /** A relocation forced by the entries alone is atomic exactly when the index goes to a place clear of
      where it was. */
  lemma EntriesMayOverlap(t: Tx)
    requires t.Ready() && t.Relocates() && t.Tail() + t.ChunkLen() <= Last(t.h).offset
    ensures Atomic(t) <==>
      || Last(t.h).length == 0
      || t.IndexEnd() <= t.Tail() + t.ChunkLen() + t.cfg.relocationLeadingPadding
      || t.Tail() + t.ChunkLen() + t.cfg.relocationLeadingPadding + Last(t.h).length + t.EntryLen() <= Last(t.h).offset
  {
    hide HistoryOk, FramesOn, RegionsIn, SlotOk, Cipher;
  }

  /** A completion that fits the trailing gap of a new blob is appended. */
  lemma FirstCompletion(t: Tx, c: CompleteEntry)
    requires t.h.commits != [] && Inv(t.keys, t.d, t.h) && t.h.records == [] && t.req == Request([], [c])
    requires Last(t.h).offset + Last(t.h).length + COMPLETE_ENTRY_LEN <= |t.d.bytes|
    ensures t.Ready() && !t.Relocates() && t.Tail() == FRONT_MATTER_LEN
    ensures var now := t.After();
      now.commits != [] && Last(now).length >= COMPLETE_ENTRY_LEN && Last(now).offset == Last(t.h).offset
    ensures Last(t.After()).length == Last(t.h).length + COMPLETE_ENTRY_LEN
    ensures Ledger.Tail(t.After().records) == FRONT_MATTER_LEN
  {
    hide HistoryOk, FramesOn, RegionsIn, SlotOk, Cipher, Placed;
    assert t.ChunkLen() == 0 && t.EntryLen() == COMPLETE_ENTRY_LEN;
    hide ChunkBytes, EntryBytes, Tx.Records, Inv;
    NewIndexLength(t);
    RecordsPlaced(t);
  }

  /** A new blob, whatever its gaps, with one completion committed and a chunk too long for the leading
      gap: the transaction that would write the chunk can lose the index. */
  method OverlapReached(vaultId: VaultId, blobId: BlobId, keys: Keys, config: BlobConfig, complete: CompleteEntry,
                        chunk: NewChunk, ents: nat -> Entropy)
      returns (r: Result<Blob>, ghost t: Tx, ghost k: nat, ghost img: DiskState)
    requires config.initialTrailingGap >= COMPLETE_ENTRY_LEN
    requires FRONT_MATTER_LEN + config.initialLeadingGap + config.initialTrailingGap < U64_LIMIT
    requires config.initialLeadingGap < |chunk.plaintext| + FRAME_OVERHEAD && |chunk.plaintext| <= MAX_CHUNK_PLAINTEXT_LEN
    requires FRONT_MATTER_LEN + |chunk.plaintext| + FRAME_OVERHEAD + config.relocationLeadingPadding
             + COMPLETE_ENTRY_LEN + CHUNK_ENTRY_LEN + config.relocationTrailingPadding < U64_LIMIT
    ensures r.Ok? && fresh(r.value) && r.value.Committed()
    ensures t == r.value.TxOf(Request([chunk], []), ents(2)) && t.Ready() && !Atomic(t)
    ensures k <= |t.Script()| && CrashImage(t.d, t.Script()[..k], img)
    ensures ReadActive(keys, img) == Err(IndexMacMismatch)
    ensures Refresh(keys, img).Ok? && Refresh(keys, img).value.index == EMPTY_INDEX
    ensures Refresh(keys, img).value.locator.generation == 0
  {
    hide Inv, SnapshotOk, CrashImage, ReadActive, Tx.Script, Tx.Records, Tx.NewLocator, ApplyAll, IndexOf, Plain;
    r := Blob.CreateNew(vaultId, blobId, keys, config, ents(0));
    var blob := r.value;
    ghost var first := blob.TxOf(Request([], [complete]), ents(1));
    NewBlobEnd(first, config);
    FirstCompletion(first, complete);
    var written := blob.WriteChunks(Request([], [complete]), ents(1));
    t := blob.TxOf(Request([chunk], []), ents(2));
    LongChunk(t, chunk);
    ChunksForceOverlap(t);
    k, img := RelocationCanLoseIndex(t);
    BackToGenesis(first, t, img);
  }

  /** A new blob's index is empty and lies between the initial gaps. */
  lemma NewBlobEnd(t: Tx, config: BlobConfig)
    requires t.h.commits != [] && Inv(t.keys, t.d, t.h) && t.h.records == []
    requires Last(t.h).offset == FRONT_MATTER_LEN + config.initialLeadingGap
    requires |t.d.bytes| == FRONT_MATTER_LEN + config.initialLeadingGap + config.initialTrailingGap
    requires config.initialTrailingGap >= COMPLETE_ENTRY_LEN
    ensures Last(t.h).length == 0 && Last(t.h).offset + Last(t.h).length + COMPLETE_ENTRY_LEN <= |t.d.bytes|
  {
    NothingPlain(t.keys);
    assert CommitOk(t.keys, t.h, |t.h.commits| - 1);
    assert t.h.records[..t.h.commits[|t.h.commits| - 1].count] == [];
  }

  /** With its one completion lost, a new blob is taken for empty again. */
  lemma BackToGenesis(first: Tx, t: Tx, img: DiskState)
    requires first.Ready() && |first.h.commits| == 1 && first.h.records == []
    requires t.keys == first.keys && t.h == first.After() && t.d == ApplyAll(first.d, first.Script())
    requires Safe(t.keys, img, t.h) && img.slots == t.d.slots && ReadActive(t.keys, img) == Err(IndexMacMismatch)
    ensures Refresh(t.keys, img).Ok? && Refresh(t.keys, img).value.index == EMPTY_INDEX
    ensures Refresh(t.keys, img).value.locator.generation == 0
  {
    hide Placed, FramesOn, SlotOk, Plain, Tx.Script, ApplyAll, Tx.Records, Tx.NewLocator, Refresh, ReadActive,
         Cipher;
    OneSlotWritten(first);
    NothingPlain(t.keys);
    assert CommitOk(first.keys, first.h, 0);
    assert CommitOk(t.keys, t.h, 0);
    assert first.h.records[..0] == [] && t.h.records[..0] == [];
    assert img.slots[0] == Sealed(t.h.commits[0].locator);
    var l := t.h.commits[0].locator;
    assert l.length == 0 && img.bytes[l.offset..l.offset + l.length] == [];
    assert IndexIntact(t.keys, img, t.h, 0);
    FallsBack(t.keys, img, t.h);
  }

  /** One chunk fits a transaction if what it needs does. */
  lemma LongChunk(t: Tx, chunk: NewChunk)
    requires t.h.commits != [] && Inv(t.keys, t.d, t.h) && t.req == Request([chunk], [])
    requires |chunk.plaintext| <= MAX_CHUNK_PLAINTEXT_LEN
    requires t.Tail() + |chunk.plaintext| + FRAME_OVERHEAD + t.cfg.relocationLeadingPadding
             + Last(t.h).length + CHUNK_ENTRY_LEN + t.cfg.relocationTrailingPadding < U64_LIMIT
    ensures t.Ready() && t.ChunkLen() == |chunk.plaintext| + FRAME_OVERHEAD
  {
    assert [chunk][..0] == [];
    assert ChunkBytes([chunk]) == |chunk.plaintext| + FRAME_OVERHEAD;
    assert t.req.chunks == [chunk];
    hide Inv, ChunkBytes;
  }
}
