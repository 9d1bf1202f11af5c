/** The planner's estimate of a blob, against the blob's real layout. */
module Estimates {
  import opened Basics
  import opened IndexCodec
  import opened Crypto
  import opened Disk
  import opened Ledger
  import opened Transaction
  import opened Commits
  import opened Handles
  import opened Layout
  import opened Cache
  import opened Planner
  import opened Placement
  import opened Bounds

  /** The frames of a blob's cached chunks, with every addition checked. */
  function CachedFrames(chunks: seq<ChunkEntry>): Result<u64> {
    if chunks == [] then Ok(0)
    else
      var before :- CachedFrames(chunks[..|chunks| - 1]);
      var frame :- CheckedAdd(chunks[|chunks| - 1].plaintextLength, CHUNK_FRAME_OVERHEAD);
      CheckedAdd(before, frame)
  }

  function EstimateOf(index: BlobIndex): Result<u64> {
    var frames :- CachedFrames(index.chunks);
    var chunkEntries :- CheckedMul(|index.chunks|, CHUNK_ENTRY_WIRE_LEN);
    var completeEntries :- CheckedMul(|index.completed|, FILE_COMPLETE_ENTRY_WIRE_LEN);
    var indexSize :- CheckedAdd(chunkEntries, completeEntries);
    CheckedAdd(frames, indexSize)
  }

  /** What the planner takes a blob's size to be: from its cached entries only. */
  function EstimatedSize(v: VaultIndex, b: BlobId): Result<u64> {
    EstimateOf(Project(v, b))
  }

  /** The bytes a blob's frames and index really take. */
  function SizeOf(rs: seq<Record>): int {
    Tail(rs) - FRONT_MATTER_LEN + |Plain(rs)|
  }

  lemma {:induction false} CachedFramesSum(chunks: seq<ChunkEntry>)
    requires FrameSum(chunks) < U64_LIMIT
    ensures CachedFrames(chunks) == Ok(FrameSum(chunks))
  {
    if chunks == [] {
    } else {
      CachedFramesSum(chunks[..|chunks| - 1]);
    }
  }

  lemma EstimateAdds(index: BlobIndex)
    requires var n := CHUNK_ENTRY_LEN * |index.chunks| + COMPLETE_ENTRY_LEN * |index.completed|;
      FrameSum(index.chunks) + n < U64_LIMIT
    ensures EstimateOf(index)
         == Ok(FrameSum(index.chunks) + CHUNK_ENTRY_LEN * |index.chunks| + COMPLETE_ENTRY_LEN * |index.completed|)
  {
    CachedFramesSum(index.chunks);
    hide FrameSum, CachedFrames;
  }

  /** With a fresh cache the estimate is exactly the chunk region plus the index. */
  lemma EstimateExact(v: VaultIndex, shelf: Shelf)
    requires Placed(shelf.keys, shelf.records) && SizeOf(shelf.records) < U64_LIMIT
    requires Project(v, shelf.id) == IndexOf(shelf.records)
    ensures EstimatedSize(v, shelf.id) == Ok(SizeOf(shelf.records))
  {
    IndexPacked(shelf.keys, shelf.records);
    EncodedLength(Entries(shelf.records));
    hide Placed, Tail, FrameSum, EstimateOf, Project, Packed;
    EstimateAdds(IndexOf(shelf.records));
  }

  lemma {:induction false} GroupBytes(plan: seq<Assigned>, k: nat)
    ensures PlannedBytes(plan, k) == ChunkBytes(Group(plan, k)) + CHUNK_ENTRY_LEN * |Group(plan, k)|
  {
    if plan == [] {
    } else {
      var n := |plan| - 1;
      GroupBytes(plan[..n], k);
      if plan[n].blob == k {
        assert Group(plan, k) == Group(plan[..n], k) + [plan[n].chunk];
        assert Group(plan, k)[..|Group(plan, k)| - 1] == Group(plan[..n], k);
      } else {
        assert Group(plan, k) == Group(plan[..n], k);
      }
    }
  }

  /** A transaction raises a blob's size by exactly its frames and its entries. */
  lemma SizeGrows(t: Tx)
    requires t.Ready()
    ensures SizeOf(t.Records()) == SizeOf(t.h.records) + t.ChunkLen() + t.EntryLen()
  {
    hide Inv, Tx.Fits, Plain, Ledger.Tail, Tx.Records, Placed;
    RecordsPlaced(t);
    NewIndexLength(t);
  }

  /** Between transactions a blob's size is below its file's length, so its estimate never overflows. */
  lemma SizeBelowFile(keys: Keys, d: DiskState, h: History)
    requires Inv(keys, d, h)
    ensures 0 <= SizeOf(h.records) < |d.bytes| < U64_LIMIT
    ensures FRONT_MATTER_LEN + SizeOf(h.records) <= Last(h).offset + Last(h).length <= |d.bytes|
  {
    hide SlotOk, FramesOn, Cipher, RegionsIn, Placed;
    TailAppend([], h.records);
    assert CommitOk(keys, h, |h.commits| - 1);
    assert h.records[..h.commits[|h.commits| - 1].count] == h.records;
  }

  /** Space bound in the planner's terms: over a crash-free run a file is never longer than it started,
      or than the front matter, the blob's estimated size and both relocation paddings. */
  lemma FileWithinEstimate(txs: seq<Tx>)
    requires Chain(txs) && txs != []
    ensures txs[0].h.commits != [] && txs[|txs| - 1].Ready()
    ensures |txs[0].d.bytes| <= |Final(txs).0.bytes|
         <= Max(|txs[0].d.bytes|, FRONT_MATTER_LEN + SizeOf(Final(txs).1.records) + Lead(txs) + Trail(txs))
  {
    hide Chain, Tx.Ready, Tx.Script, ApplyAll, Loads, Relocations, Moved, Reached, Tail, Plain, HistoryOk, FramesOn,
         RegionsIn,
         SlotOk,
         ChunkTotal, EntryTotal;
    SpaceBound(txs);
    SizeBelowFile(txs[|txs| - 1].keys, Final(txs).0, Final(txs).1);
    SizeIsLayout(txs[|txs| - 1].keys, Final(txs).0, Final(txs).1);
  }

  lemma SizeIsLayout(keys: Keys, d: DiskState, h: History)
    requires Inv(keys, d, h)
    ensures FRONT_MATTER_LEN + SizeOf(h.records) == Tail(h.records) + Last(h).length
  {
    hide SlotOk, FramesOn, RegionsIn, Cipher, Placed, Plain;
    assert CommitOk(keys, h, |h.commits| - 1);
    assert h.records[..h.commits[|h.commits| - 1].count] == h.records;
  }
}
