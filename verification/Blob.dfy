/** One open handle of a blob: reading, appending, relocating and committing. */
module Blobs {
  import opened Basics
  import opened IndexCodec
  import opened Crypto
  import opened Disk
  import opened Ledger
  import opened Transaction
  import opened Commits
  import opened BlobFile
  import opened Handles
  import opened Recovery
  import opened Layout
  import opened Sorting

  class Blob {
    const vaultId: VaultId
    const blobId: BlobId
    const file: File
    const keys: Keys
    const config: BlobConfig
    var committed: Option<Snapshot>

    /** A file length is a 64-bit number. */
    ghost predicate Valid()
      reads this, file
    {
      |file.state.bytes| < U64_LIMIT
    }

    /** The file is between transactions and the handle's snapshot is that of some commit. */
    ghost predicate Committed()
      reads this, file
    {
      Inv(keys, file.state, file.history) && SnapshotOk(file.history, committed)
    }

    ghost function TxOf(req: Request, ent: Entropy): Tx
      reads this, file
    {
      Tx(keys, config, file.state, file.history, req, ent)
    }

    /** Another handle on a file that already holds a blob. */
    constructor OpenExisting(vaultId: VaultId, blobId: BlobId, file: File, keys: Keys, config: BlobConfig)
      requires |file.state.bytes| < U64_LIMIT
      ensures Valid() && this.file == file && this.keys == keys && this.config == config
      ensures this.vaultId == vaultId && this.blobId == blobId
      ensures committed == None
      ensures Inv(keys, file.state, file.history) ==> Committed()
    {
      this.vaultId, this.blobId, this.file, this.keys, this.config := vaultId, blobId, file, keys, config;
      committed := None;
    }

    // Reading

    method ReadSortedLocators() returns (r: Result<seq<Locator>>)
      ensures r == SortedLocators(file.state)
      ensures r.Ok? ==> r.value != []
    {
      var a := SlotLocator(file.state, 0);
      var b := SlotLocator(file.state, 1);
      var locators := [];
      if a.Some? { locators := locators + [a.value]; }
      if b.Some? { locators := locators + [b.value]; }
      if locators == [] {
        return Err(NoValidLocator);
      }
      if |locators| == 2 && locators[0].generation < locators[1].generation {
        locators := [locators[1], locators[0]];
      }
      assert a.Some? && b.Some? ==> locators == SortLocators(a, b).value;
      assert a.Some? && b.None? ==> locators == [a.value];
      assert a.None? && b.Some? ==> locators == [b.value];
      return Ok(locators);
    }

    method ReadIndexWithLocator(l: Locator) returns (r: Result<Loaded>)
      ensures r == LoadIndex(keys, file.state, l)
    {
      var ciphertext: seq<byte> := [];
      if l.length != 0 {
        ciphertext :- file.ReadAt(l.offset, l.length);
      }
      if Mac(l.generation, l.length, ciphertext) != l.mac {
        return Err(IndexMacMismatch);
      }
      var plaintext := StreamXor(keys.indexStream, 0, ciphertext);
      var index :- ParseEntries(plaintext);
      return Ok(Loaded(index, plaintext));
    }

    method LoadIndexForWrite(l: Locator) returns (r: Result<Loaded>)
      ensures r == LoadForWrite(keys, file.state, committed, l)
    {
      if committed.Some? && committed.value.locator == l {
        return Ok(Loaded(committed.value.index, committed.value.plaintext));
      }
      r := ReadIndexWithLocator(l);
    }

    /** Reads the active index, retrying when its MAC does not match. */
    method ReadIndex() returns (r: Result<BlobIndex>)
      ensures r == match ReadActive(keys, file.state)
                   case Ok(loaded) => Ok(loaded.index)
                   case Err(e) => if e == IndexMacMismatch then Err(RetryBudgetExceeded) else Err(e)
      ensures Inv(keys, file.state, file.history) ==> r == Ok(IndexOf(file.history.records))
    {
      if Inv(keys, file.state, file.history) {
        ReadActiveCommitted(keys, file.state, file.history);
      }
      var attempt := 0;
      while attempt < config.readerRetryBudget + 1
        invariant attempt > 0 ==> ReadActive(keys, file.state) == Err(IndexMacMismatch)
      {
        var locators :- ReadSortedLocators();
        var loaded := ReadIndexWithLocator(locators[0]);
        match loaded {
          case Ok(l) => return Ok(l.index);
          case Err(e) =>
            if e != IndexMacMismatch {
              return Err(e);
            }
        }
        attempt := attempt + 1;
      }
      return Err(RetryBudgetExceeded);
    }

    /** Reads the newest index that authenticates and makes it the handle's snapshot. */
    method RefreshCommittedSnapshot() returns (r: Result<BlobIndex>)
      modifies this`committed
      ensures match Refresh(keys, file.state)
              case Ok(s) => r == Ok(s.index) && committed == Some(s)
              case Err(e) => r == Err(e) && committed == old(committed)
      ensures Inv(keys, file.state, file.history) ==> r == Ok(IndexOf(file.history.records)) && Committed()
      ensures Readable(keys, file.state, file.history) ==>
        match r
        case Ok(index) =>
          && committed.Some? && index == committed.value.index
          && NewestIntact(keys, file.state, file.history, Ok(committed.value))
        case Err(e) => NewestIntact(keys, file.state, file.history, Err(e))
    {
      ghost var inv := Inv(keys, file.state, file.history);
      if Readable(keys, file.state, file.history) {
        RefreshNewest(keys, file.state, file.history);
      }
      hide Readable, NewestIntact;
      if inv {
        RefreshCommitted(keys, file.state, file.history);
      }
      var locators :- ReadSortedLocators();
      var i := 0;
      while i < |locators|
        invariant 0 <= i <= |locators|
        invariant committed == old(committed)
        invariant Refresh(keys, file.state) == RefreshFrom(keys, file.state, locators[i..])
      {
        var loaded := ReadIndexWithLocator(locators[i]);
        match loaded {
          case Ok(l) =>
            committed := Some(Snapshot(locators[i], l.index, l.plaintext));
            return Ok(l.index);
          case Err(e) =>
            if e != IndexMacMismatch && e != IndexChainBroken {
              return Err(e);
            }
        }
        i := i + 1;
      }
      return Err(RetryBudgetExceeded);
    }

    /** A committed chunk reads back as the plaintext it was written with. */
    method ReadChunk(entry: ChunkEntry) returns (r: Result<seq<byte>>)
      ensures r == ReadChunkAt(keys, file.state, entry)
      ensures forall i {:trigger file.history.records[i]} ::
        (&& Readable(keys, file.state, file.history) && |file.state.bytes| < U64_LIMIT
         && 0 <= i < |file.history.records| && file.history.records[i].ChunkRecord?
         && entry == file.history.records[i].chunk) ==> r == Ok(file.history.records[i].plaintext)
    {
      var frameLen :- CheckedAdd(entry.plaintextLength, FRAME_OVERHEAD);
      var frame :- file.ReadAt(entry.offset, frameLen);
      r := DecryptChunk(keys, entry, frame);
      if Readable(keys, file.state, file.history) && |file.state.bytes| < U64_LIMIT {
        ReadableChunks(keys, file.state, file.history);
      }
    }

    /** Finds the first chunk with a file and sequence number in the active index. */
    method ReadChunkById(fileId: FileId, sequenceNumber: u64) returns (r: Result<seq<byte>>)
      ensures Inv(keys, file.state, file.history) ==>
        var rs := file.history.records;
        match r
        case Ok(plaintext) =>
          exists i :: 0 <= i < |rs| && IsChunk(rs[i], fileId, sequenceNumber) && rs[i].plaintext == plaintext
            && forall j :: 0 <= j < i ==> !IsChunk(rs[j], fileId, sequenceNumber)
        case Err(e) => e == IndexChainBroken && forall i :: 0 <= i < |rs| ==> !IsChunk(rs[i], fileId, sequenceNumber)
    {
      var index :- ReadIndex();
      ghost var inv, rs := Inv(keys, file.state, file.history), file.history.records;
      var i := 0;
      while i < |index.chunks|
        invariant 0 <= i <= |index.chunks|
        invariant forall j :: 0 <= j < i ==>
          !(index.chunks[j].fileId == fileId && index.chunks[j].sequenceNumber == sequenceNumber)
      {
        if index.chunks[i].fileId == fileId && index.chunks[i].sequenceNumber == sequenceNumber {
          r := ReadChunk(index.chunks[i]);
          if inv {
            var at := RecordOfChunk(rs, i);
            FirstChunk(rs, index.chunks, fileId, sequenceNumber, i, at);
          }
          return;
        }
        i := i + 1;
      }
      if inv {
        forall k | 0 <= k < |rs| ensures !IsChunk(rs[k], fileId, sequenceNumber) {
          if rs[k].ChunkRecord? {
            var at := ChunkOfRecord(rs, k);
          }
        }
      }
      return Err(IndexChainBroken);
    }

    // Writing

    method ComputeDataTail(chunks: seq<ChunkEntry>) returns (r: Result<u64>)
      ensures r == DataTail(chunks)
    {
      var tail: u64 := FRONT_MATTER_LEN;
      var i := 0;
      while i < |chunks|
        invariant 0 <= i <= |chunks|
        invariant DataTail(chunks[..i]) == Ok(tail)
      {
        assert chunks[..i + 1][..i] == chunks[..i];
        var frame := CheckedAdd(chunks[i].plaintextLength, FRAME_OVERHEAD);
        if frame.Err? {
          DataTailFails(chunks, i + 1);
          return Err(IntegerOverflow);
        }
        var end := CheckedAdd(chunks[i].offset, frame.value);
        if end.Err? {
          DataTailFails(chunks, i + 1);
          return Err(IntegerOverflow);
        }
        tail := Max(tail, end.value);
        i := i + 1;
      }
      assert chunks[..i] == chunks;
      return Ok(tail);
    }

    /** Seals each chunk at the running tail and encodes its entry. */
    method PrepareChunks(chunks: seq<NewChunk>, dataTail: u64, ent: Entropy) returns (r: Result<WritePlan>)
      ensures r.Ok? <==> ChunksFit(chunks) && dataTail + ChunkBytes(chunks) < U64_LIMIT
      ensures r.Err? ==>
        || (r.error == InvalidChunkSize && !ChunksFit(chunks))
        || (r.error == IntegerOverflow && dataTail + ChunkBytes(chunks) >= U64_LIMIT)
      ensures r.Ok? ==> r.value.totalChunkLen == ChunkBytes(chunks)
                        && Planned(keys, ent, r.value, ChunkRecords(keys, dataTail, chunks))
    {
      hide Planned, ChunkBytes, ChunkRecords, ChunksFit, Frames, Plain, IndexOf;
      var plan := WritePlan([], [], [], 0);
      PlanNothing(keys, ent, dataTail, chunks);
      var i := 0;
      while i < |chunks|
        invariant 0 <= i <= |chunks|
        invariant ChunksFit(chunks[..i])
        invariant plan.totalChunkLen == ChunkBytes(chunks[..i]) && dataTail + plan.totalChunkLen < U64_LIMIT
        invariant Planned(keys, ent, plan, ChunkRecords(keys, dataTail, chunks[..i]))
      {
        ChunkStep(keys, dataTail, chunks, i);
        ghost var rs := ChunkRecords(keys, dataTail, chunks[..i]);
        plan :- SealChunk(chunks[i], dataTail + plan.totalChunkLen, plan, ent, i, rs);
        i := i + 1;
      }
      assert chunks[..i] == chunks;
      return Ok(plan);
    }

    /** Seals one chunk at the running tail and adds its frame and its entry to the plan. */
    method SealChunk(c: NewChunk, tail: u64, plan: WritePlan, ent: Entropy, i: nat, ghost rs: seq<Record>)
        returns (r: Result<WritePlan>)
      requires Planned(keys, ent, plan, rs) && |rs| == i && plan.totalChunkLen <= tail
      ensures r.Ok? <==> |c.plaintext| <= MAX_CHUNK_PLAINTEXT_LEN && tail + |c.plaintext| + FRAME_OVERHEAD < U64_LIMIT
      ensures r.Err? ==>
        || (r.error == InvalidChunkSize && |c.plaintext| > MAX_CHUNK_PLAINTEXT_LEN)
        || (r.error == IntegerOverflow && tail + |c.plaintext| + FRAME_OVERHEAD >= U64_LIMIT)
      ensures r.Ok? ==>
        && r.value.totalChunkLen == plan.totalChunkLen + |c.plaintext| + FRAME_OVERHEAD
        && Planned(keys, ent, r.value, rs + [NewChunkRecord(keys, tail, c)])
    {
      hide Planned, FrameOf, EncodeEntry;
      if |c.plaintext| > MAX_CHUNK_PLAINTEXT_LEN {
        return Err(InvalidChunkSize);
      }
      var next := NewChunkRecord(keys, tail, c);
      var frame := FrameOf(keys, next, ent.nonce(i));
      if tail + |frame| >= U64_LIMIT {
        return Err(IntegerOverflow);
      }
      PlannedSnoc(keys, ent, plan, rs, next, frame, plan.totalChunkLen + |frame|);
      return Ok(WritePlan(plan.entries + [next.chunk], plan.frames + [frame],
                          plan.indexEntries + EncodeEntry(Chunk(next.chunk)), plan.totalChunkLen + |frame|));
    }

    /** Plans the entries and seals the frames of a request, writing nothing. */
    method PrepareWrite(req: Request, dataTail: u64, ent: Entropy) returns (r: Result<WritePlan>)
      ensures r.Ok? <==> ChunksFit(req.chunks) && dataTail + ChunkBytes(req.chunks) < U64_LIMIT
      ensures r.Err? ==>
        || (r.error == InvalidChunkSize && !ChunksFit(req.chunks))
        || (r.error == IntegerOverflow && dataTail + ChunkBytes(req.chunks) >= U64_LIMIT)
      ensures r.Ok? ==>
        var rs := ChunkRecords(keys, dataTail, req.chunks);
        && r.value.entries == IndexOf(rs).chunks
        && r.value.frames == Frames(keys, ent, rs)
        && r.value.indexEntries == Plain(rs + CompleteRecords(req.completed))
        && r.value.totalChunkLen == |Join(r.value.frames)| == ChunkBytes(req.chunks)
    {
      var plan :- PrepareChunks(req.chunks, dataTail, ent);
      ghost var rs := ChunkRecords(keys, dataTail, req.chunks);
      var completed := req.completed;
      var bytes := plan.indexEntries;
      assert rs + CompleteRecords(completed[..0]) == rs;
      var j := 0;
      while j < |completed|
        invariant 0 <= j <= |completed|
        invariant bytes == Plain(rs + CompleteRecords(completed[..j]))
      {
        RecordsSnoc(rs + CompleteRecords(completed[..j]), CompleteRecord(completed[j]));
        assert rs + CompleteRecords(completed[..j + 1])
            == rs + CompleteRecords(completed[..j]) + [CompleteRecord(completed[j])];
        bytes := bytes + EncodeEntry(Complete(completed[j]));
        j := j + 1;
      }
      assert completed[..j] == completed;
      JoinedFrames(keys, ent, dataTail, req.chunks);
      return Ok(plan.(indexEntries := bytes));
    }

    method WriteFrames(offset: nat, frames: seq<seq<byte>>)
      requires offset + |Join(frames)| < U64_LIMIT
      modifies file`state, file`log
      ensures file.log == old(file.log) + PieceOps(offset, frames)
      ensures file.state == ApplyAll(old(file.state), PieceOps(offset, frames))
    {
      var at: u64 := offset;
      var i := 0;
      assert PieceOps(offset, frames[..0]) == [] && Join(frames[..0]) == [] && ApplyAll(file.state, []) == file.state;
      hide PieceOps, Join, Overwrite, ApplyAll;
      while i < |frames|
        invariant 0 <= i <= |frames|
        invariant at == offset + |Join(frames[..i])|
        invariant file.log == old(file.log) + PieceOps(offset, frames[..i])
        invariant file.state == ApplyAll(old(file.state), PieceOps(offset, frames[..i]))
      {
        PieceStep(old(file.state), offset, frames, i);
        LogSnoc(old(file.log), PieceOps(offset, frames[..i]), Write(at, frames[i]));
        file.WriteAllAt(at, frames[i]);
        at := at + |frames[i]|;
        i := i + 1;
      }
      assert frames[..i] == frames;
    }

    /** Fills `n` bytes from `offset` with random data, a buffer at a time. */
    method WriteRandomAt(offset: nat, n: nat, fill: nat -> byte)
      modifies file`state, file`log
      ensures file.log == old(file.log) + PieceOps(offset, FillPieces(offset, n, fill))
      ensures file.state == ApplyAll(old(file.state), PieceOps(offset, FillPieces(offset, n, fill)))
    {
      var at: nat, remaining: nat := offset, n;
      ghost var pieces: seq<seq<byte>> := [];
      assert PieceOps(offset, pieces) == [] && Join(pieces) == [] && ApplyAll(file.state, []) == file.state;
      hide PieceOps, Join, Overwrite, ApplyAll, FillPieces, FillBuffer, Apply;
      while remaining > 0
        invariant pieces + FillPieces(at, remaining, fill) == FillPieces(offset, n, fill)
        invariant at == offset + |Join(pieces)|
        invariant file.log == old(file.log) + PieceOps(offset, pieces)
        invariant file.state == ApplyAll(old(file.state), PieceOps(offset, pieces))
        decreases remaining
      {
        var m := Min(remaining, FILL_BUFFER_LEN);
        var buffer := FillBuffer(at, m, fill);
        FillStep(pieces, at, remaining, fill);
        file.WriteAllAt(at, buffer);
        LogSnoc(old(file.log), PieceOps(offset, pieces), Write(at, buffer));
        PieceSnoc(old(file.state), offset, pieces, buffer);
        pieces := pieces + [buffer];
        at, remaining := at + m, remaining - m;
      }
      FillDone(pieces, at, fill);
    }

    /** Case 1: chunks into the leading gap, then entries into the trailing gap. */
    method AppendInPlace(l: Locator, plan: WritePlan, dataTail: nat)
      requires dataTail + |Join(plan.frames)| < U64_LIMIT
      modifies file`state, file`log
      ensures var ops := AppendOps(dataTail, plan.frames, l.offset + l.length,
                                   StreamXor(keys.indexStream, l.length, plan.indexEntries));
        file.log == old(file.log) + ops && file.state == ApplyAll(old(file.state), ops)
    {
      hide PieceOps, Join, Overwrite, ApplyAll, StreamXor;
      WriteFrames(dataTail, plan.frames);
      file.SyncAll();
      var entries := StreamXor(keys.indexStream, l.length, plan.indexEntries);
      file.WriteAllAt(l.offset + l.length, entries);
      file.SyncAll();
      AppendOpsSteps(old(file.state), old(file.log), dataTail, plan.frames, l.offset + l.length, entries);
    }

    /** Case 2: makes room, moves the index ciphertext verbatim, appends the entries and writes the chunks. */
    method RelocateAndAppendIndex(l: Locator, plan: WritePlan, dataTail: u64, ent: Entropy)
        returns (r: Result<(u64, u64)>)
      requires plan.totalChunkLen == |Join(plan.frames)|
      requires l.offset + l.length <= |file.state.bytes|
      modifies file`state, file`log
      ensures var at := dataTail + plan.totalChunkLen + config.relocationLeadingPadding;
        var length := l.length + |plan.indexEntries|;
        var required := at + length + config.relocationTrailingPadding;
        var eof := |old(file.state.bytes)|;
        if required >= U64_LIMIT then
          r == Err(IntegerOverflow) && file.log == old(file.log) && file.state == old(file.state)
        else
          var fill := if required > eof then FillPieces(eof, required - eof, ent.fill) else [];
          var moved := old(file.state.bytes)[l.offset..l.offset + l.length];
          var ops := RelocateOps(eof, fill, at, moved, StreamXor(keys.indexStream, l.length, plan.indexEntries),
                                 dataTail, plan.frames);
          r == Ok((at, length)) && file.log == old(file.log) + ops && file.state == ApplyAll(old(file.state), ops)
    {
      hide PieceOps, Join, Overwrite, ApplyAll, StreamXor, FillPieces, FillBuffer, RelocateOps;
      var room :- CheckedAdd(plan.totalChunkLen, config.relocationLeadingPadding);
      var at :- CheckedAdd(dataTail, room);
      var length :- CheckedAdd(l.length, |plan.indexEntries|);
      var rest :- CheckedAdd(length, config.relocationTrailingPadding);
      var required :- CheckedAdd(at, rest);
      MoveIndex(l, plan, dataTail, at, required, ent);
      return Ok((at, length));
    }

    /** Grows the file as far as required, moves the index, encrypts the new entries after it and writes
        the frames, with one barrier at the end. */
    method MoveIndex(l: Locator, plan: WritePlan, dataTail: u64, at: u64, required: u64, ent: Entropy)
      requires dataTail + |Join(plan.frames)| < U64_LIMIT && l.offset + l.length <= |file.state.bytes|
      modifies file`state, file`log
      ensures var eof := |old(file.state.bytes)|;
        var fill := if required > eof then FillPieces(eof, required - eof, ent.fill) else [];
        var moved := old(file.state.bytes)[l.offset..l.offset + l.length];
        var ops := RelocateOps(eof, fill, at, moved, StreamXor(keys.indexStream, l.length, plan.indexEntries),
                               dataTail, plan.frames);
        file.log == old(file.log) + ops && file.state == ApplyAll(old(file.state), ops)
    {
      hide PieceOps, Join, Overwrite, ApplyAll, StreamXor, FillPieces, FillBuffer, RelocateOps;
      var eof := |file.state.bytes|;
      ghost var start, log := file.state, file.log;
      ghost var fill := if required > eof then FillPieces(eof, required - eof, ent.fill) else [];
      if required > eof {
        WriteRandomAt(eof, required - eof, ent.fill);
      }
      NoPieces(start, log, eof);
      GrowKeeps(start, fill, l.offset, l.length);
      var moved: seq<byte> := [];
      if l.length > 0 {
        moved := file.state.bytes[l.offset..l.offset + l.length];
        file.WriteAllAt(at, moved);
      }
      var entries := StreamXor(keys.indexStream, l.length, plan.indexEntries);
      file.WriteAllAt(at + l.length, entries);
      WriteFrames(dataTail, plan.frames);
      file.SyncAll();
      RelocateOpsSteps(start, log, fill, at, moved, entries, dataTail, plan.frames);
    }

    /** The active locator, the index to extend and the end of the chunk region. */
    method LoadForCommit() returns (r: Result<(Locator, Loaded, u64)>)
      requires Valid()
      ensures Committed() ==>
        r == Ok((Last(file.history), LoadedOf(file.history.records), Tail(file.history.records)))
      ensures r.Ok? ==> r.value.2 >= FRONT_MATTER_LEN
    {
      if Committed() {
        ActiveIsLast(keys, file.state, file.history);
        SnapshotCoherent(keys, file.state, file.history, committed);
        DataTailIsTail(keys, file.history.records);
      }
      var locators :- ReadSortedLocators();
      var loaded :- LoadIndexForWrite(locators[0]);
      var tail :- ComputeDataTail(loaded.index.chunks);
      DataTailLow(loaded.index.chunks);
      return Ok((locators[0], loaded, tail));
    }

    /** Authenticates the index now on the file and writes its locator into the inactive slot. */
    method CommitIndex(l: Locator, offset: u64, length: u64) returns (locator: Locator)
      requires offset + length <= |file.state.bytes|
      modifies file`state, file`log
      ensures locator == Locator(l.generation + 1, offset, length,
                                 Mac(l.generation + 1, length, old(file.state.bytes)[offset..offset + length]), 1 - l.slot)
      ensures file.state == Apply(old(file.state), WriteSlot(locator))
      ensures file.log == old(file.log) + [WriteSlot(locator), Sync]
    {
      var ciphertext := file.ReadAt(offset, length);
      var mac := Mac(l.generation + 1, length, ciphertext.value);
      locator := Locator(l.generation + 1, offset, length, mac, 1 - l.slot);
      file.WriteVolatileSlot(locator);
      file.SyncAll();
      assert old(file.log) + [WriteSlot(locator)] + [Sync] == old(file.log) + [WriteSlot(locator), Sync];
    }

    /** What the writer works with is what the transaction plans from the state of the file. */
    ghost predicate DescribedBy(t: Tx, l: Locator, plan: WritePlan, dataTail: nat, ent: Entropy)
      reads file
    {
      t.d == file.state && t.keys == keys && t.cfg == config && t.ent == ent && Describes(t, l, plan, dataTail)
    }

    /** Chooses between appending in place and relocating, and writes everything but the commit. */
    method PlaceIndex(l: Locator, plan: WritePlan, dataTail: u64, ent: Entropy, ghost t: Tx)
        returns (r: Result<(u64, u64)>)
      requires Valid()
      requires plan.totalChunkLen == |Join(plan.frames)| && dataTail + plan.totalChunkLen < U64_LIMIT
      requires plan.totalChunkLen == 0 ==> plan.frames == []
      modifies file`state, file`log
      ensures r.Err? ==> file.state == old(file.state) && file.log == old(file.log)
      ensures r.Ok? ==> r.value.0 + r.value.1 <= |file.state.bytes| < U64_LIMIT
      ensures old(DescribedBy(t, l, plan, dataTail, ent)) ==>
        && (r.Ok? <==> t.Fits())
        && (r.Err? ==> r.error == IntegerOverflow)
        && (r.Ok? ==> file.log == old(file.log) + t.Body() && file.state == ApplyAll(t.d, t.Body())
                      && r.value == (t.IndexAt(), Last(t.h).length + t.EntryLen()))
    {
      hide ApplyAll, PieceOps, Join, Frames, ChunkRecords, StreamXor, HistoryOk, FramesOn, RegionsIn, SlotOk,
           FillPieces, Plain,
           AppendOps, RelocateOps, Tx.Body, CompleteRecords, Tail;
      ghost var start, described := file.state, DescribedBy(t, l, plan, dataTail, ent);
      ghost var entries := StreamXor(keys.indexStream, l.length, plan.indexEntries);
      var indexEnd :- CheckedAdd(l.offset, l.length);
      var entryLen, chunkLen := |plan.indexEntries|, plan.totalChunkLen;
      var leadingGap := SaturatingSub(l.offset, dataTail);
      var eof := |file.state.bytes|;
      if eof < indexEnd {
        return Err(IndexChainBroken);
      }
      var trailingGap := eof - indexEnd;
      if described {
        DescribedLengths(t, l, plan, dataTail);
      }
      if chunkLen > leadingGap || entryLen > trailingGap {
        r := RelocateAndAppendIndex(l, plan, dataTail, ent);
        if r.Ok? {
          RelocateFits(start, l, plan, dataTail, config, ent, entries);
          if described {
            BodyIsRelocate(t);
          }
        }
      } else {
        AppendSize(start, dataTail, plan.frames, indexEnd, entries);
        AppendInPlace(l, plan, dataTail);
        if described {
          BodyIsAppend(t);
        }
        return Ok((l.offset, l.length + entryLen));
      }
    }

    /** Appends chunks and completions as one transaction. */
    method WriteChunks(req: Request, ent: Entropy) returns (r: Result<WriteResult>)
      requires Valid()
      modifies file, this`committed
      ensures Valid()
      ensures r.Err? ==> file.state == old(file.state) && file.log == old(file.log)
                         && file.history == old(file.history) && committed == old(committed)
      ensures old(Committed()) ==> Outcome(old(TxOf(req, ent)), old(file.log), r)
    {
      hide ApplyAll, HistoryOk, FramesOn, RegionsIn, SlotOk, Tx.Body, Tx.Script, Plain, IndexOf, Frames, ChunkRecords, Join,
           DataTail,
           CompleteRecords, SnapshotOk, Tail;
      ghost var t, log, inv := TxOf(req, ent), file.log, Committed();
      var loaded :- LoadForCommit();
      var (locator, before, tail) := loaded;
      var plan :- PrepareWrite(req, tail, ent);
      NoFrames(keys, ent, tail, req.chunks);
      if inv {
        assert Describes(t, locator, plan, tail);
      }
      var placed :- PlaceIndex(locator, plan, tail, ent, t);
      ghost var staged := file.state;
      var newLocator := CommitIndex(locator, placed.0, placed.1);
      var index := BlobIndex(before.index.chunks + plan.entries, before.index.completed + req.completed);
      committed := Some(Snapshot(newLocator, index, before.plaintext + plan.indexEntries));
      if inv {
        ReadBackLocator(t, staged, newLocator);
        CommitDone(t, log);
        IndexAfter(t);
        SnapshotKept(t, None);
        file.history := t.After();
      }
      return Ok(WriteResult(plan.entries, index));
    }

    /** What a transaction started between transactions does. */
    ghost predicate Outcome(t: Tx, log: seq<Op>, r: Result<WriteResult>)
      reads this, file
      requires Inv(t.keys, t.d, t.h)
    {
      match r
      case Err(e) =>
        (e == InvalidChunkSize && !ChunksFit(t.req.chunks)) || (e == IntegerOverflow && t.Overflows())
      case Ok(result) =>
        && t.Ready()
        && Committed()
        && file.history == t.After()
        && file.log == log + t.Script()
        && file.state == ApplyAll(t.d, t.Script())
        && committed == Some(Snapshot(t.NewLocator(), IndexOf(t.Records()), Plain(t.Records())))
        && result == WriteResult(IndexOf(t.NewChunkRecords()).chunks, IndexOf(t.Records()))
    }

    // Creation

    /** Writes the first commit slot and the random gaps of a new file. */
    method Format(offset: u64, gaps: nat, ent: Entropy)
      requires |file.state.bytes| == FRONT_MATTER_LEN && file.state.slots == [Torn, Torn]
      requires FRONT_MATTER_LEN <= offset <= FRONT_MATTER_LEN + gaps < U64_LIMIT
      modifies file, this`committed
      ensures Valid() && Committed()
      ensures file.history.records == [] && |file.history.commits| == 1
      ensures |file.state.bytes| == FRONT_MATTER_LEN + gaps && Last(file.history).offset == offset
      ensures forall p :: FRONT_MATTER_LEN <= p < FRONT_MATTER_LEN + gaps ==> file.state.bytes[p] == ent.fill(p)
    {
      hide Inv, SnapshotOk, PieceOps, FillPieces, ApplyAll;
      NothingPlain(keys);
      ghost var locator' := LocatorFor(keys, 0, offset, []);
      var locator := Locator(0, offset, 0, Mac(0, 0, []), 0);
      file.WriteVolatileSlot(locator);
      ghost var d := file.state;
      WriteRandomAt(FRONT_MATTER_LEN, gaps, ent.fill);
      GrowEffect(d, gaps, ent.fill);
      GrownBytes(d, gaps, ent.fill);
      file.SyncAll();
      committed := Some(Snapshot(locator, EMPTY_INDEX, []));
      file.history := History([], [Commit(locator', 0)]);
      GenesisOk(keys, file.state, file.history, offset);
    }

    /** Creates an empty blob: generation 0, an empty index after the initial leading gap. */
    static method CreateNew(vaultId: VaultId, blobId: BlobId, keys: Keys, config: BlobConfig, ent: Entropy)
        returns (r: Result<Blob>)
      ensures r.Ok? <==>
        && config.relocationLeadingPadding + config.relocationTrailingPadding < U64_LIMIT
        && FRONT_MATTER_LEN + config.initialLeadingGap + config.initialTrailingGap < U64_LIMIT
      ensures r.Err? ==> r.error == IntegerOverflow || r.error == Io
      ensures r.Ok? ==>
        var b := r.value;
        && fresh(b) && fresh(b.file) && b.Valid() && b.Committed()
        && b.vaultId == vaultId && b.blobId == blobId && b.keys == keys && b.config == config
        && b.file.history.records == [] && |b.file.history.commits| == 1
        && |b.file.state.bytes| == FRONT_MATTER_LEN + config.initialLeadingGap + config.initialTrailingGap
        && Last(b.file.history).offset == FRONT_MATTER_LEN + config.initialLeadingGap
        && forall p :: FRONT_MATTER_LEN <= p < |b.file.state.bytes| ==> b.file.state.bytes[p] == ent.fill(p)
    {
      hide Inv, SnapshotOk;
      var gaps :- CheckedAdd(config.initialLeadingGap, config.initialTrailingGap);
      var paddings :- CheckedAdd(config.relocationLeadingPadding, config.relocationTrailingPadding);
      var offset :- CheckedAdd(FRONT_MATTER_LEN, config.initialLeadingGap);
      if FRONT_MATTER_LEN + gaps >= U64_LIMIT {
        return Err(Io); // no file is that long
      }
      var front := seq(FRONT_MATTER_LEN, i requires 0 <= i < FRONT_MATTER_LEN => 0);
      var file := new File(DiskData(front, [Torn, Torn]), History([], []));
      var blob := new Blob.OpenExisting(vaultId, blobId, file, keys, config);
      blob.Format(offset, gaps, ent);
      return Ok(blob);
    }

    // Statistics

    /** The bytes before and between the frames of a list in offset order: all up to the end of the last one
        that are of none. */
    method InterChunkGaps(chunks: seq<ChunkEntry>) returns (r: Result<nat>)
      ensures Spaced(chunks) && EndOf(chunks) < U64_LIMIT ==> r == Ok(EndOf(chunks) - FRONT_MATTER_LEN - FrameSum(chunks))
    {
      hide Spaced;
      ghost var spaced := Spaced(chunks) && EndOf(chunks) < U64_LIMIT;
      var gap: u64, cursor: u64 := 0, FRONT_MATTER_LEN;
      var i := 0;
      while i < |chunks|
        invariant 0 <= i <= |chunks|
        invariant spaced ==>
          cursor == EndOf(chunks[..i]) && gap == cursor - FRONT_MATTER_LEN - FrameSum(chunks[..i])
      {
        if spaced {
          SpacedStep(chunks, i);
        }
        if chunks[i].offset > cursor {
          gap :- CheckedAdd(gap, chunks[i].offset - cursor);
        }
        var frame :- CheckedAdd(chunks[i].plaintextLength, FRAME_OVERHEAD);
        cursor :- CheckedAdd(chunks[i].offset, frame);
        i := i + 1;
      }
      assert chunks[..i] == chunks;
      return Ok(gap);
    }

    method ChunkSums(chunks: seq<ChunkEntry>) returns (r: Result<(u64, u64)>)
      ensures FrameSum(chunks) < U64_LIMIT ==> r == Ok((PlaintextSum(chunks), FrameSum(chunks)))
    {
      var plain: u64, frames: u64 := 0, 0;
      var i := 0;
      while i < |chunks|
        invariant 0 <= i <= |chunks|
        invariant FrameSum(chunks) < U64_LIMIT ==> plain == PlaintextSum(chunks[..i]) && frames == FrameSum(chunks[..i])
      {
        SumSnoc(chunks, i);
        plain :- CheckedAdd(plain, chunks[i].plaintextLength);
        var frame :- CheckedAdd(chunks[i].plaintextLength, FRAME_OVERHEAD);
        frames :- CheckedAdd(frames, frame);
        i := i + 1;
      }
      assert chunks[..i] == chunks;
      return Ok((plain, frames));
    }

    /** The physical layout of the blob.  Between transactions every byte is accounted for. */
    method GetLayoutStats() returns (r: Result<LayoutStats>)
      requires Valid()
      ensures Inv(keys, file.state, file.history) ==>
        r.Ok? && Accounted(keys, file.state, file.history, r.value)
    {
      ghost var inv, h := Inv(keys, file.state, file.history), file.history;
      if inv {
        ActiveIsLast(keys, file.state, h);
        ReadActiveCommitted(keys, file.state, h);
        CommittedChunks(keys, h.records);
        TallyAccounted(keys, file.state, h);
      }
      hide *;
      var locators :- ReadSortedLocators();
      var l := locators[0];
      var loaded :- ReadIndexWithLocator(l);
      var chunks := loaded.index.chunks;
      var sums :- ChunkSums(chunks);
      var sorted := SortBy(OffsetKey, chunks);
      var first := if sorted == [] then 0 else SaturatingSub(sorted[0].offset, FRONT_MATTER_LEN);
      if inv {
        PackedIsSpaced(chunks);
      }
      var inter :- InterChunkGaps(sorted);
      var tail :- ComputeDataTail(chunks);
      r := Tally(|file.state.bytes|, l, loaded, sums.0, sums.1, first, inter, tail);
    }
  }

  lemma PlanNothing(keys: Keys, ent: Entropy, tail: nat, chunks: seq<NewChunk>)
    requires tail < U64_LIMIT
    ensures ChunksFit(chunks[..0]) && ChunkBytes(chunks[..0]) == 0
    ensures Planned(keys, ent, WritePlan([], [], [], 0), ChunkRecords(keys, tail, chunks[..0]))
  {
  }

  /** The first match in the index is the first among the records. */
  lemma FirstChunk(rs: seq<Record>, chunks: seq<ChunkEntry>, fileId: FileId, sequenceNumber: u64, k: nat, i: nat)
    requires chunks == IndexOf(rs).chunks && k < |chunks| && i < |rs| && rs[i].ChunkRecord?
    requires rs[i].chunk == chunks[k] && |IndexOf(rs[..i]).chunks| == k
    requires chunks[k].fileId == fileId && chunks[k].sequenceNumber == sequenceNumber
    requires forall j :: 0 <= j < k ==> !(chunks[j].fileId == fileId && chunks[j].sequenceNumber == sequenceNumber)
    ensures IsChunk(rs[i], fileId, sequenceNumber)
    ensures forall j :: 0 <= j < i ==> !IsChunk(rs[j], fileId, sequenceNumber)
  {
    forall j | 0 <= j < i ensures !IsChunk(rs[j], fileId, sequenceNumber) {
      if rs[j].ChunkRecord? {
        var at := ChunkOfRecord(rs, j);
        ChunkOrder(rs, j, i);
      }
    }
  }

  lemma TallyAccounted(keys: Keys, d: DiskState, h: History)
    requires Inv(keys, d, h)
    ensures var chunks := IndexOf(h.records).chunks;
      var r := Tally(|d.bytes|, Last(h), LoadedOf(h.records), PlaintextSum(chunks), FrameSum(chunks), 0, 0, Tail(h.records));
      r.Ok? && Accounted(keys, d, h, r.value)
  {
    CommittedLengths(keys, d, h);
    CommittedChunks(keys, h.records);
  }

  /** Adds up a layout. */
  function Tally(size: nat, l: Locator, loaded: Loaded, plain: nat, frames: nat, first: nat, inter: nat, tail: nat)
      : (r: Result<LayoutStats>)
    ensures first == 0 && inter == 0 && tail == FRONT_MATTER_LEN + frames
            && tail <= l.offset && l.offset + l.length <= size < U64_LIMIT ==>
      r == Ok(LayoutStats(size, size - FRONT_MATTER_LEN, l.generation, |loaded.index.chunks|, |loaded.index.completed|,
                          plain, frames, 0, 0, tail, l.offset - tail, l.offset, l.length, |loaded.plaintext|,
                          size - (l.offset + l.length), 0))
  {
    var indexEnd :- CheckedAdd(l.offset, l.length);
    var leading := SaturatingSub(l.offset, tail);
    var trailing := SaturatingSub(size, indexEnd);
    var a :- CheckedAdd(l.length, trailing);
    var b :- CheckedAdd(leading, a);
    var c :- CheckedAdd(inter, b);
    var e :- CheckedAdd(first, c);
    var classified :- CheckedAdd(frames, e);
    var body := SaturatingSub(size, FRONT_MATTER_LEN);
    Ok(LayoutStats(size, body, l.generation, |loaded.index.chunks|, |loaded.index.completed|, plain, frames, first, inter,
                   tail, leading, l.offset, l.length, |loaded.plaintext|, trailing, SaturatingSub(body, classified)))
  }

  lemma NothingPlain(keys: Keys)
    ensures Plain([]) == [] && Cipher(keys, []) == [] && IndexOf([]) == EMPTY_INDEX
  {
  }

  /** A new blob is between transactions, with one commit of no records. */
  lemma GenesisOk(keys: Keys, d: DiskState, h: History, offset: u64)
    requires Plain([]) == [] && h == History([], [Commit(LocatorFor(keys, 0, offset, []), 0)])
    requires FRONT_MATTER_LEN <= offset <= |d.bytes| < U64_LIMIT
    requires d.slots == [Sealed(h.commits[0].locator), Torn]
    ensures Inv(keys, d, h)
    ensures SnapshotOk(h, Some(Snapshot(Locator(0, offset, 0, Mac(0, 0, []), 0), EMPTY_INDEX, [])))
  {
    NothingPlain(keys);
    assert h.records[..0] == [];
    assert CommitOk(keys, h, 0);
    assert SlotOk(h, d, 0) by { assert d.slots[0] == Sealed(h.commits[0].locator); }
    assert SnapshotOf(h, 0, Snapshot(Locator(0, offset, 0, Mac(0, 0, []), 0), EMPTY_INDEX, []));
  }

  lemma CommittedLengths(keys: Keys, d: DiskState, h: History)
    requires Inv(keys, d, h)
    ensures Last(h).generation == |h.commits| - 1
    ensures Last(h).length == |Plain(h.records)|
         == CHUNK_ENTRY_LEN * |IndexOf(h.records).chunks| + COMPLETE_ENTRY_LEN * |IndexOf(h.records).completed|
  {
    hide SlotOk, FramesOn, RegionsIn, Cipher, Placed;
    EncodedLength(Entries(h.records));
    assert CommitOk(keys, h, |h.commits| - 1);
    assert h.records[..h.commits[|h.commits| - 1].count] == h.records;
  }

  lemma CommittedChunks(keys: Keys, rs: seq<Record>)
    requires Placed(keys, rs) && Tail(rs) < U64_LIMIT
    ensures var chunks := IndexOf(rs).chunks;
      && Packed(chunks) && SortBy(OffsetKey, chunks) == chunks
      && (chunks != [] ==> chunks[0].offset == FRONT_MATTER_LEN)
      && FRONT_MATTER_LEN + FrameSum(chunks) == Tail(rs)
      && FrameSum(chunks) == PlaintextSum(chunks) + FRAME_OVERHEAD * |chunks|
      && DataTail(chunks) == Ok(Tail(rs))
  {
    var chunks := IndexOf(rs).chunks;
    IndexPacked(keys, rs);
    PackedSorted(chunks);
    FrameSumCount(chunks);
    DataTailIsTail(keys, rs);
  }

  lemma PackedSorted(chunks: seq<ChunkEntry>)
    requires Packed(chunks)
    ensures SortBy(OffsetKey, chunks) == chunks
    ensures chunks != [] ==> chunks[0].offset == FRONT_MATTER_LEN
  {
    forall i, j | 0 <= i < j < |chunks| ensures OffsetKey(chunks[i]) <= OffsetKey(chunks[j]) {
      PackedOrder(chunks, i, j);
    }
    SortByIdentity(OffsetKey, chunks);
    if chunks != [] {
      assert chunks[..0] == [];
    }
  }
}
