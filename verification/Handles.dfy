/** What a handle knows, and the operations it issues for each kind of write. */
module Handles {
  import opened Basics
  import opened IndexCodec
  import opened Crypto
  import opened Disk
  import opened Ledger
  import opened Transaction
  import opened Commits
  import opened Crash

  type BlobId = FileId
  type VaultId = FileId

  /** The index a handle last wrote or refreshed, with the locator it belongs to. */
  datatype Snapshot = Snapshot(locator: Locator, index: BlobIndex, plaintext: seq<byte>)

  datatype WritePlan = WritePlan(
    entries: seq<ChunkEntry>, frames: seq<seq<byte>>, indexEntries: seq<byte>, totalChunkLen: u64)

  datatype WriteResult = WriteResult(entries: seq<ChunkEntry>, index: BlobIndex)

  /** A snapshot is that of some commit, possibly an old one. */
  ghost predicate SnapshotOk(h: History, snapshot: Option<Snapshot>) {
    snapshot.None? ||
    exists g :: 0 <= g < |h.commits| && SnapshotOf(h, g, snapshot.value)
  }

  ghost predicate SnapshotOf(h: History, g: nat, s: Snapshot)
    requires g < |h.commits|
  {
    && s.locator == h.commits[g].locator
    && h.commits[g].count <= |h.records|
    && s.index == IndexOf(h.records[..h.commits[g].count])
    && s.plaintext == Plain(h.records[..h.commits[g].count])
  }

  predicate IsChunk(r: Record, fileId: FileId, sequenceNumber: u64) {
    r.ChunkRecord? && r.chunk.fileId == fileId && r.chunk.sequenceNumber == sequenceNumber
  }

  /** What a writer starts from: its snapshot if the active locator is still the snapshot's,
      otherwise the index it reads. */
  ghost function LoadForWrite(keys: Keys, d: DiskState, snapshot: Option<Snapshot>, l: Locator): Result<Loaded> {
    if snapshot.Some? && snapshot.value.locator == l
    then Ok(Loaded(snapshot.value.index, snapshot.value.plaintext))
    else LoadIndex(keys, d, l)
  }

  /** Skipping the index read gives what reading it would have given. */
  lemma SnapshotCoherent(keys: Keys, d: DiskState, h: History, snapshot: Option<Snapshot>)
    requires Inv(keys, d, h) && SnapshotOk(h, snapshot)
    ensures LoadForWrite(keys, d, snapshot, Last(h)) == LoadIndex(keys, d, Last(h)) == Ok(LoadedOf(h.records))
  {
    hide SlotOk, Placed, FramesOn, RegionsIn, LoadIndex, Cipher;
    ReadActiveCommitted(keys, d, h);
    if snapshot.Some? && snapshot.value.locator == Last(h) {
      var g :| 0 <= g < |h.commits| && SnapshotOf(h, g, snapshot.value);
      var top := |h.commits| - 1;
      assert CommitOk(keys, h, g) && CommitOk(keys, h, top);
      assert g == top;
      assert h.records[..h.commits[top].count] == h.records;
    }
  }

  lemma SnapshotLater(was: History, h: History, snapshot: Option<Snapshot>)
    requires SnapshotOk(was, snapshot) && Continues(was, h)
    ensures SnapshotOk(h, snapshot)
  {
    if snapshot.Some? {
      var g :| 0 <= g < |was.commits| && SnapshotOf(was, g, snapshot.value);
      assert h.records[..was.commits[g].count] == was.records[..was.commits[g].count];
      assert SnapshotOf(h, g, snapshot.value);
    }
  }

  /** Later commits do not invalidate a snapshot. */
  lemma SnapshotKept(t: Tx, snapshot: Option<Snapshot>)
    requires t.Ready() && SnapshotOk(t.h, snapshot)
    ensures SnapshotOk(t.After(), snapshot)
    ensures SnapshotOk(t.After(), Some(Snapshot(t.NewLocator(), IndexOf(t.Records()), Plain(t.Records()))))
  {
    var h, top := t.After(), |t.h.commits|;
    SnapshotLater(t.h, h, snapshot);
    assert h.records[..|h.records|] == h.records;
    assert SnapshotOf(h, top, Snapshot(t.NewLocator(), IndexOf(t.Records()), Plain(t.Records())));
  }

  /** The tries of a refresh: the first locator whose index authenticates wins. */
  ghost function RefreshFrom(keys: Keys, d: DiskState, locators: seq<Locator>): Result<Snapshot> {
    if locators == [] then Err(RetryBudgetExceeded)
    else
      match LoadIndex(keys, d, locators[0])
      case Ok(loaded) => Ok(Snapshot(locators[0], loaded.index, loaded.plaintext))
      case Err(e) =>
        if e == IndexMacMismatch || e == IndexChainBroken then RefreshFrom(keys, d, locators[1..]) else Err(e)
  }

  ghost function Refresh(keys: Keys, d: DiskState): Result<Snapshot> {
    var locators :- SortedLocators(d);
    RefreshFrom(keys, d, locators)
  }

  /** Between transactions a refresh yields the last commit. */
  lemma RefreshCommitted(keys: Keys, d: DiskState, h: History)
    requires Inv(keys, d, h)
    ensures Refresh(keys, d) == Ok(Snapshot(Last(h), IndexOf(h.records), Plain(h.records)))
    ensures SnapshotOk(h, Some(Refresh(keys, d).value))
  {
    ActiveIsLast(keys, d, h);
    ReadActiveCommitted(keys, d, h);
    var top := |h.commits| - 1;
    assert h.records[..h.commits[top].count] == h.records;
    assert SnapshotOf(h, top, Refresh(keys, d).value);
  }

  /** Frames, barrier, entries, barrier: the writes of Case 1. */
  ghost function AppendOps(tail: nat, frames: seq<seq<byte>>, end: nat, entries: seq<byte>): seq<Op> {
    PieceOps(tail, frames) + [Sync] + [Write(end, entries)] + [Sync]
  }

  ghost function RelocateOps(eof: nat, fill: seq<seq<byte>>, at: nat, moved: seq<byte>, entries: seq<byte>,
                             tail: nat, frames: seq<seq<byte>>): seq<Op>
  {
    PieceOps(eof, fill) + (if |moved| > 0 then [Write(at, moved)] else [])
    + [Write(at + |moved|, entries)] + PieceOps(tail, frames) + [Sync]
  }

  /** The plan lists, seals and encodes exactly the chunk records `rs`. */
  ghost predicate Planned(keys: Keys, ent: Entropy, plan: WritePlan, rs: seq<Record>) {
    plan.entries == IndexOf(rs).chunks && plan.frames == Frames(keys, ent, rs) && plan.indexEntries == Plain(rs)
  }

  lemma PlannedSnoc(keys: Keys, ent: Entropy, plan: WritePlan, rs: seq<Record>, r: Record, frame: seq<byte>, total: u64)
    requires Planned(keys, ent, plan, rs) && r.ChunkRecord?
    requires frame == FrameOf(keys, r, ent.nonce(|rs|))
    ensures Planned(keys, ent, WritePlan(plan.entries + [r.chunk], plan.frames + [frame],
                                         plan.indexEntries + EncodeEntry(Chunk(r.chunk)), total), rs + [r])
  {
    RecordsSnoc(rs, r);
    assert Frames(keys, ent, rs + [r]) == Frames(keys, ent, rs) + [frame];
  }

  lemma LogSnoc(log: seq<Op>, ops: seq<Op>, op: Op)
    ensures log + ops + [op] == log + (ops + [op])
  {
  }

  lemma AppendOpsSteps(d: DiskState, log: seq<Op>, tail: nat, frames: seq<seq<byte>>, end: nat, entries: seq<byte>)
    ensures var ops := AppendOps(tail, frames, end, entries);
      && log + ops == log + PieceOps(tail, frames) + [Sync] + [Write(end, entries)] + [Sync]
      && ApplyAll(d, ops) == Apply(ApplyAll(d, PieceOps(tail, frames)), Write(end, entries))
  {
    var p := PieceOps(tail, frames);
    ApplyOne(d, p, Sync);
    ApplyOne(d, p + [Sync], Write(end, entries));
    ApplyOne(d, p + [Sync] + [Write(end, entries)], Sync);
  }

  lemma NoPieces(d: DiskState, log: seq<Op>, offset: nat)
    ensures PieceOps(offset, []) == [] && ApplyAll(d, []) == d && log + [] == log
  {
  }

  /** Growing a file at its end leaves what was there. */
  lemma GrowKeeps(d: DiskState, fill: seq<seq<byte>>, lo: nat, n: nat)
    requires lo + n <= |d.bytes|
    ensures var grown := ApplyAll(d, PieceOps(|d.bytes|, fill)).bytes;
      lo + n <= |grown| && grown[lo..lo + n] == d.bytes[lo..lo + n]
  {
    PieceOpsEffect(d, |d.bytes|, fill);
    OverwriteEffect(d.bytes, |d.bytes|, Join(fill));
  }

  lemma RelocateOpsSteps(d: DiskState, log: seq<Op>, fill: seq<seq<byte>>, at: nat, moved: seq<byte>,
                         entries: seq<byte>, tail: nat, frames: seq<seq<byte>>)
    ensures var eof := |d.bytes|;
      var move := if |moved| > 0 then [Write(at, moved)] else [];
      var ops := RelocateOps(eof, fill, at, moved, entries, tail, frames);
      var grown := ApplyAll(d, PieceOps(eof, fill));
      && log + ops == log + PieceOps(eof, fill) + move + [Write(at + |moved|, entries)] + PieceOps(tail, frames) + [Sync]
      && (|moved| == 0 ==> log + PieceOps(eof, fill) + move == log + PieceOps(eof, fill))
      && ApplyAll(d, ops)
         == ApplyAll(Apply(if |moved| > 0 then Apply(grown, Write(at, moved)) else grown, Write(at + |moved|, entries)),
                     PieceOps(tail, frames))
  {
    hide PieceOps, Overwrite;
    var a := PieceOps(|d.bytes|, fill);
    var move := if |moved| > 0 then [Write(at, moved)] else [];
    FiveSteps(d, a, move, Write(at + |moved|, entries), PieceOps(tail, frames));
    if |moved| > 0 {
      ApplyOne(ApplyAll(d, a), [], Write(at, moved));
      assert [] + [Write(at, moved)] == move;
    }
  }

  lemma {:induction false} DataTailLow(chunks: seq<ChunkEntry>)
    ensures DataTail(chunks).Ok? ==> DataTail(chunks).value >= FRONT_MATTER_LEN
  {
    if chunks == [] {
    } else {
      DataTailLow(chunks[..|chunks| - 1]);
    }
  }

  lemma NoFrames(keys: Keys, ent: Entropy, tail: nat, chunks: seq<NewChunk>)
    requires tail + ChunkBytes(chunks) < U64_LIMIT
    ensures ChunkBytes(chunks) == 0 ==> Frames(keys, ent, ChunkRecords(keys, tail, chunks)) == []
  {
  }

  /** An append that fits its gaps does not change the length of the file. */
  lemma AppendSize(d: DiskState, tail: nat, frames: seq<seq<byte>>, end: nat, entries: seq<byte>)
    requires frames == [] || tail + |Join(frames)| <= |d.bytes|
    requires end + |entries| <= |d.bytes|
    ensures |ApplyAll(d, AppendOps(tail, frames, end, entries)).bytes| == |d.bytes|
  {
    AppendOpsSteps(d, [], tail, frames, end, entries);
    if frames != [] {
      PieceOpsEffect(d, tail, frames);
      OverwriteEffect(d.bytes, tail, Join(frames));
    }
    var mid := ApplyAll(d, PieceOps(tail, frames));
    OverwriteEffect(mid.bytes, end, entries);
  }

  /** A relocation leaves a file that reaches at least its trailing padding. */
  lemma RelocateSize(d: DiskState, at: nat, required: nat, fill: seq<seq<byte>>, moved: seq<byte>, entries: seq<byte>,
                     tail: nat, frames: seq<seq<byte>>)
    requires tail + |Join(frames)| <= at && at + |moved| + |entries| <= required
    requires |Join(fill)| == if required > |d.bytes| then required - |d.bytes| else 0
    ensures |ApplyAll(d, RelocateOps(|d.bytes|, fill, at, moved, entries, tail, frames)).bytes| == Max(|d.bytes|, required)
  {
    RelocateOpsSteps(d, [], fill, at, moved, entries, tail, frames);
    PieceOpsEffect(d, |d.bytes|, fill);
    OverwriteEffect(d.bytes, |d.bytes|, Join(fill));
    var grown := ApplyAll(d, PieceOps(|d.bytes|, fill));
    var mid := if |moved| > 0 then Apply(grown, Write(at, moved)) else grown;
    OverwriteEffect(grown.bytes, at, moved);
    OverwriteEffect(mid.bytes, at + |moved|, entries);
    var last := Apply(mid, Write(at + |moved|, entries));
    PieceOpsEffect(last, tail, frames);
    OverwriteEffect(last.bytes, tail, Join(frames));
  }

  /** The operations the code issues are those of the transaction. */
  lemma BodyIsAppend(t: Tx)
    requires t.Ready() && !t.Relocates()
    ensures t.Body() == AppendOps(t.Tail(), Frames(t.keys, t.ent, t.NewChunkRecords()), t.IndexEnd(), t.EntryCipher())
  {
  }

  lemma IndexOnFile(t: Tx)
    requires t.h.commits != [] && Inv(t.keys, t.d, t.h)
    ensures t.IndexEnd() <= |t.d.bytes| && t.d.bytes[Last(t.h).offset..t.IndexEnd()] == Cipher(t.keys, t.h.records)
  {
    hide HistoryOk, FramesOn, RegionsIn, SlotOk, Cipher;
  }

  lemma BodyIsRelocate(t: Tx)
    requires t.Ready() && t.Relocates()
    ensures var eof, required := |t.d.bytes|, t.RequiredEof();
      t.Body() == RelocateOps(eof, if required > eof then FillPieces(eof, required - eof, t.ent.fill) else [],
                              t.IndexAt(), t.d.bytes[Last(t.h).offset..t.IndexEnd()], t.EntryCipher(),
                              t.Tail(), Frames(t.keys, t.ent, t.NewChunkRecords()))
  {
    hide Inv, Tx.Fits, Tx.Ready, Tx.Relocates, Tx.Body, Tx.GrowthOps, Tx.MoveOps, PieceOps, FillPieces, Frames, Plain,
         Tx.EntryCipher, Tx.NewChunkRecords, Tx.RequiredEof, Tx.IndexAt, Tx.IndexEnd, Tx.Tail, Cipher;
    GrowthIs(t);
    MoveIs(t);
    BodyParts(t);
  }

  lemma BodyParts(t: Tx)
    requires t.Ready() && t.Relocates()
    ensures t.Body() == t.GrowthOps() + t.MoveOps() + [Write(t.IndexAt() + Last(t.h).length, t.EntryCipher())]
                        + PieceOps(t.Tail(), Frames(t.keys, t.ent, t.NewChunkRecords())) + [Sync]
  {
    hide Inv, Tx.Fits, Tx.GrowthOps, Tx.MoveOps, PieceOps, Frames, Tx.EntryCipher;
  }

  lemma GrowthIs(t: Tx)
    requires t.Ready()
    ensures var eof, required := |t.d.bytes|, t.RequiredEof();
      t.GrowthOps() == PieceOps(eof, if required > eof then FillPieces(eof, required - eof, t.ent.fill) else [])
  {
    hide Inv, FillPieces;
    NoPieces(t.d, [], |t.d.bytes|);
  }

  lemma MoveIs(t: Tx)
    requires t.Ready()
    ensures t.IndexEnd() <= |t.d.bytes|
    ensures var moved := t.d.bytes[Last(t.h).offset..t.IndexEnd()];
      |moved| == Last(t.h).length && t.MoveOps() == if |moved| > 0 then [Write(t.IndexAt(), moved)] else []
  {
    IndexOnFile(t);
    hide Inv, Cipher;
  }

  /** The locator and plan a writer works with are those of the transaction. */
  ghost predicate Describes(t: Tx, l: Locator, plan: WritePlan, dataTail: nat) {
    && t.h.commits != [] && Inv(t.keys, t.d, t.h)
    && ChunksFit(t.req.chunks) && t.Tail() + t.ChunkLen() < U64_LIMIT
    && l == Last(t.h) && dataTail == t.Tail()
    && plan.frames == Frames(t.keys, t.ent, ChunkRecords(t.keys, t.Tail(), t.req.chunks))
    && plan.indexEntries == Plain(ChunkRecords(t.keys, t.Tail(), t.req.chunks) + CompleteRecords(t.req.completed))
    && plan.totalChunkLen == t.ChunkLen()
  }

  lemma DescribedLengths(t: Tx, l: Locator, plan: WritePlan, dataTail: nat)
    requires Describes(t, l, plan, dataTail)
    ensures |plan.indexEntries| == t.EntryLen()
    ensures t.h.commits != [] && t.Tail() <= Last(t.h).offset && t.IndexEnd() <= |t.d.bytes| < U64_LIMIT
  {
    ChunkRecordsPlain(t.keys, t.Tail(), t.req.chunks);
    CompleteRecordsPlain(t.req.completed);
    EntriesAppend(ChunkRecords(t.keys, t.Tail(), t.req.chunks), CompleteRecords(t.req.completed));
  }

  lemma RelocateFits(d: DiskState, l: Locator, plan: WritePlan, tail: nat, cfg: BlobConfig, ent: Entropy,
                     entries: seq<byte>)
    requires plan.totalChunkLen == |Join(plan.frames)| && l.offset + l.length <= |d.bytes|
    requires |entries| == |plan.indexEntries|
    ensures var at := tail + plan.totalChunkLen + cfg.relocationLeadingPadding;
      var required := at + l.length + |plan.indexEntries| + cfg.relocationTrailingPadding;
      var eof := |d.bytes|;
      var fill := if required > eof then FillPieces(eof, required - eof, ent.fill) else [];
      |ApplyAll(d, RelocateOps(eof, fill, at, d.bytes[l.offset..l.offset + l.length], entries, tail, plan.frames)).bytes|
        == Max(eof, required)
  {
    var at := tail + plan.totalChunkLen + cfg.relocationLeadingPadding;
    var required := at + l.length + |plan.indexEntries| + cfg.relocationTrailingPadding;
    var eof := |d.bytes|;
    var fill := if required > eof then FillPieces(eof, required - eof, ent.fill) else [];
    if required > eof {
      FillLength(eof, required - eof, ent.fill);
    }
    RelocateSize(d, at, required, fill, d.bytes[l.offset..l.offset + l.length], entries, tail, plan.frames);
  }

  /** Reading the index back and authenticating it gives the locator of a one-pass encryption. */
  lemma ReadBackLocator(t: Tx, staged: DiskState, l: Locator)
    requires t.Ready() && staged == ApplyAll(t.d, t.Body())
    requires var n := Last(t.h).length + t.EntryLen();
      && t.IndexAt() + n <= |staged.bytes| && t.IndexAt() < U64_LIMIT && n < U64_LIMIT
      && l == Locator(Last(t.h).generation + 1, t.IndexAt(), n,
                      Mac(Last(t.h).generation + 1, n, staged.bytes[t.IndexAt()..t.IndexAt() + n]), 1 - Last(t.h).slot)
    ensures l == t.NewLocator()
  {
    hide FramesOn, RegionsIn, SlotOk, Placed, Tx.Body, ApplyAll, Cipher, Frames, Join;
    BodyStages(t);
    NewIndexLength(t);
    assert CommitOk(t.keys, t.h, |t.h.commits| - 1);
  }

  /** Writing the slot over the staged file completes the transaction. */
  lemma CommitDone(t: Tx, log: seq<Op>)
    requires t.Ready()
    ensures Apply(ApplyAll(t.d, t.Body()), WriteSlot(t.NewLocator())) == ApplyAll(t.d, t.Script())
    ensures log + t.Body() + [WriteSlot(t.NewLocator()), Sync] == log + t.Script()
    ensures Inv(t.keys, ApplyAll(t.d, t.Script()), t.After())
  {
    hide FramesOn, RegionsIn, SlotOk, HistoryOk, Tx.Body, ApplyAll, Cipher;
    FinalState(t);
    CommitReached(t);
  }

  lemma IndexAfter(t: Tx)
    requires t.Ready()
    ensures Plain(t.Records()) == Plain(t.h.records) + Plain(t.NewRecords())
    ensures IndexOf(t.Records()) == BlobIndex(IndexOf(t.h.records).chunks + IndexOf(t.NewChunkRecords()).chunks,
                                              IndexOf(t.h.records).completed + t.req.completed)
  {
    hide HistoryOk, FramesOn, RegionsIn, SlotOk, Plain, IndexOf, ChunkRecords, CompleteRecords;
    EntriesAppend(t.h.records, t.NewRecords());
    EntriesAppend(t.NewChunkRecords(), CompleteRecords(t.req.completed));
    ChunkRecordsKind(t.keys, t.Tail(), t.req.chunks);
    CollectChunks(t.NewChunkRecords());
    CollectCompletes(t.req.completed);
  }

  lemma CollectChunks(rs: seq<Record>)
    requires forall r :: r in rs ==> r.ChunkRecord?
    ensures IndexOf(rs).completed == []
  {
    CollectAll(Entries(rs));
  }

  lemma {:induction false} CollectCompletes(completed: seq<CompleteEntry>)
    ensures IndexOf(CompleteRecords(completed)) == BlobIndex([], completed)
  {
    if completed == [] {
    } else {
      var n := |completed| - 1;
      CollectCompletes(completed[..n]);
      IndexSnoc(CompleteRecords(completed[..n]), CompleteRecord(completed[n]));
      assert CompleteRecords(completed) == CompleteRecords(completed[..n]) + [CompleteRecord(completed[n])];
    }
  }

  function ReadChunkAt(keys: Keys, d: DiskState, entry: ChunkEntry): Result<seq<byte>> {
    var frameLen :- CheckedAdd(entry.plaintextLength, FRAME_OVERHEAD);
    var frame :- ReadRange(d, entry.offset, frameLen);
    DecryptChunk(keys, entry, frame)
  }

  /** At every instant, each committed chunk reads back as its plaintext. */
  lemma ReadableChunks(keys: Keys, d: DiskState, h: History)
    requires Readable(keys, d, h) && |d.bytes| < U64_LIMIT
    ensures forall i :: 0 <= i < |h.records| && h.records[i].ChunkRecord? ==>
      ReadChunkAt(keys, d, h.records[i].chunk) == Ok(h.records[i].plaintext)
  {
    hide SlotOk, CommitOk, Placed, Tail, DecryptChunk;
    forall i | 0 <= i < |h.records| && h.records[i].ChunkRecord?
      ensures ReadChunkAt(keys, d, h.records[i].chunk) == Ok(h.records[i].plaintext)
    {
      FrameBounds(keys, h.records, i);
      assert FrameOn(keys, d.bytes, h.records[i]);
    }
  }

  lemma {:induction false} DataTailFails(chunks: seq<ChunkEntry>, n: nat)
    requires n <= |chunks| && DataTail(chunks[..n]) == Err(IntegerOverflow)
    ensures DataTail(chunks) == Err(IntegerOverflow)
    decreases |chunks|
  {
    if n == |chunks| {
      assert chunks[..n] == chunks;
    } else {
      assert chunks[..|chunks| - 1][..n] == chunks[..n];
      DataTailFails(chunks[..|chunks| - 1], n);
    }
  }

  lemma {:induction false} ChunkBytesPrefix(chunks: seq<NewChunk>, n: nat)
    requires n <= |chunks|
    ensures ChunkBytes(chunks[..n]) <= ChunkBytes(chunks)
    decreases |chunks|
  {
    if n == |chunks| {
      assert chunks[..n] == chunks;
    } else {
      assert chunks[..|chunks| - 1][..n] == chunks[..n];
      ChunkBytesPrefix(chunks[..|chunks| - 1], n);
    }
  }

  lemma ChunkStep(keys: Keys, tail: nat, chunks: seq<NewChunk>, i: nat)
    requires i < |chunks|
    ensures ChunkBytes(chunks[..i + 1]) == ChunkBytes(chunks[..i]) + |chunks[i].plaintext| + FRAME_OVERHEAD
    ensures ChunkBytes(chunks[..i + 1]) <= ChunkBytes(chunks)
    ensures ChunksFit(chunks) ==> |chunks[i].plaintext| <= MAX_CHUNK_PLAINTEXT_LEN
    ensures ChunksFit(chunks[..i + 1]) <==> ChunksFit(chunks[..i]) && |chunks[i].plaintext| <= MAX_CHUNK_PLAINTEXT_LEN
    ensures tail + ChunkBytes(chunks[..i + 1]) < U64_LIMIT ==>
              ChunkRecords(keys, tail, chunks[..i + 1])
              == ChunkRecords(keys, tail, chunks[..i]) + [NewChunkRecord(keys, tail + ChunkBytes(chunks[..i]), chunks[i])]
  {
    assert chunks[..i + 1][..i] == chunks[..i];
    ChunkBytesPrefix(chunks, i + 1);
  }

  lemma RecordsSnoc(rs: seq<Record>, r: Record)
    ensures Plain(rs + [r]) == Plain(rs) + EncodeEntry(EntryOf(r))
    ensures IndexOf(rs + [r]) == AddEntry(IndexOf(rs), EntryOf(r))
  {
    EntriesAppend(rs, [r]);
    assert Entries([r]) == [EntryOf(r)];
    EncodeOne(EntryOf(r));
    IndexSnoc(rs, r);
  }
}
