/** When a put succeeds: what planning and writing need of the blobs' sizes and of the configurations. */
module Success {
  import opened Basics
  import opened IndexCodec
  import opened Crypto
  import opened Ledger
  import opened Transaction
  import opened Commits
  import opened Handles
  import opened Cache
  import opened Planner
  import opened Placement
  import opened Estimates
  import opened Growing
  import opened Assembly
  import opened VaultState

  // Planning

  /** What a whole file takes of its blob: its text, a frame and an entry for each chunk, and a completion. */
  function WholeFileBytes(cfg: VaultConfig, contents: seq<byte>): nat
    requires cfg.maxChunkSize > 0
  {
    |contents| + 113 * |FilePieces(contents, cfg.maxChunkSize)| + 57
  }

  lemma WholeEstimateIff(cfg: VaultConfig, contents: seq<byte>)
    requires cfg.maxChunkSize > 0
    ensures EstimatedWriteSize(|contents|, Max(1, CeilDiv(|contents|, cfg.maxChunkSize)))
         == if WholeFileBytes(cfg, contents) < U64_LIMIT then Ok(WholeFileBytes(cfg, contents)) else Err(IntegerOverflow)
  {
    hide CeilDiv, FilePieces;
    FilePiecesJoin(contents, cfg.maxChunkSize);
  }

  /** A whole file is planned exactly if some blob has room for it.  Otherwise it exceeds the bound by itself,
      or no blob is writable. */
  lemma WholePlanIff(sizes: seq<Result<u64>>, cfg: VaultConfig, cursor: nat, f: FileId, contents: seq<byte>)
    requires cfg.maxChunkSize > 0 && !cfg.splitFilesAcrossBlobs && |contents| < U64_LIMIT
    requires sizes != [] && forall k :: 0 <= k < |sizes| ==>
               sizes[k].Ok? && sizes[k].value + WholeFileBytes(cfg, contents) < U64_LIMIT
    ensures var r, bytes := PlanWhole(sizes, cfg, cursor, f, contents), WholeFileBytes(cfg, contents);
      && (r.Ok? <==> exists k :: 0 <= k < |sizes| && sizes[k].value + bytes <= cfg.maxBlobSize)
      && (r.Err? ==> r.error == if bytes > cfg.maxBlobSize then FileExceedsBlobCapacity else NoWritableBlob)
  {
    var bytes := WholeFileBytes(cfg, contents);
    assert sizes[0].Ok?;
    WholeEstimateIff(cfg, contents);
    FilePiecesJoin(contents, cfg.maxChunkSize);
    AssignAllOk(f, FilePieces(contents, cfg.maxChunkSize));
    hide CeilDiv, FilePieces, EstimatedWriteSize, AssignAll, Scan, Around, WholeFileBytes;
    var o := ChoiceGoesRound(sizes, cfg, cursor, NOTHING_PLANNED, bytes);
    ScanFails(sizes, NOTHING_PLANNED, bytes, cfg.maxBlobSize, Start(cfg, cursor, |sizes|));
    forall k | 0 <= k < |sizes|
      ensures HasRoom(sizes, NOTHING_PLANNED, bytes, cfg.maxBlobSize, k) <==> sizes[k].value + bytes <= cfg.maxBlobSize
      ensures IsFull(sizes, NOTHING_PLANNED, bytes, cfg.maxBlobSize, k) <==> sizes[k].value + bytes > cfg.maxBlobSize
    {
      RoomMeans(sizes, NOTHING_PLANNED, bytes, cfg.maxBlobSize, k);
    }
    hide IsFull, HasRoom, Start;
  }

  /** A whole file moves the cursor past its blob, and not at all when it is refused. */
  lemma WholeCursor(sizes: seq<Result<u64>>, cfg: VaultConfig, cursor: nat, f: FileId, contents: seq<byte>)
    requires cfg.maxChunkSize > 0 && !cfg.splitFilesAcrossBlobs && |contents| < U64_LIMIT
    ensures var r := PlanWhole(sizes, cfg, cursor, f, contents);
      && (r.Ok? ==> r.value != [])
      && CursorAfter(sizes, cfg, cursor, f, contents) == if r.Ok? then (r.value[0].blob + 1) % |sizes| else cursor
  {
    WholeEstimateIff(cfg, contents);
    var pieces := FilePieces(contents, cfg.maxChunkSize);
    FilePiecesJoin(contents, cfg.maxChunkSize);
    AssignAllOk(f, pieces);
    hide CeilDiv, FilePieces, EstimatedWriteSize, AssignAll, Choose, WholeFileBytes;
    var k := Choose(sizes, cfg, cursor, NOTHING_PLANNED, WholeFileBytes(cfg, contents));
    if k.Ok? {
      AssignAllCovers(k.value, |sizes|, f, pieces);
    }
  }

  /** Every blob's size is known, and twice the bound, or the bound and the blob, stay clear of 2^64. */
  ghost predicate AmpleSizes(sizes: seq<Result<u64>>, max: nat) {
    forall k :: 0 <= k < |sizes| ==> sizes[k].Ok? && Max(sizes[k].value, max) + max + 57 < U64_LIMIT
  }

  lemma ChoiceInBounds(sizes: seq<Result<u64>>, cfg: VaultConfig, s: Planning, extra: u64)
    requires AmpleSizes(sizes, cfg.maxBlobSize) && cfg.splitFilesAcrossBlobs && extra <= cfg.maxBlobSize
    requires Accounts(sizes, cfg, s)
    ensures var r := Choose(sizes, cfg, s.cursor, s.planned, extra); r.Ok? || r == Err(NoWritableBlob)
  {
    if sizes != [] {
      hide Choose, Around, PlannedBytes, Touched;
      var o := ChoiceGoesRound(sizes, cfg, s.cursor, s.planned, extra);
      forall k | 0 <= k < |sizes|
        ensures HasRoom(sizes, s.planned, extra, cfg.maxBlobSize, k) || IsFull(sizes, s.planned, extra, cfg.maxBlobSize, k)
      {
        RoomMeans(sizes, s.planned, extra, cfg.maxBlobSize, k);
      }
    }
  }

  lemma {:induction false} PlacingInBounds(sizes: seq<Result<u64>>, cfg: VaultConfig, f: FileId, cursor: nat,
                                           pieces: seq<seq<byte>>)
    requires AmpleSizes(sizes, cfg.maxBlobSize) && cfg.splitFilesAcrossBlobs && |pieces| < U64_LIMIT
    requires forall i :: 0 <= i < |pieces| ==> WireSize(|pieces[i]|) <= cfg.maxBlobSize
    ensures var r := PlaceAll(sizes, cfg, f, cursor, pieces); r.Ok? || r == Err(NoWritableBlob)
  {
    if pieces == [] {
    } else {
      var before, piece := pieces[..|pieces| - 1], pieces[|pieces| - 1];
      hide Choose, AmpleSizes, Accounts;
      PlacingInBounds(sizes, cfg, f, cursor, before);
      PlaceAllAccounts(sizes, cfg, f, cursor, before);
      PlaceAllCovers(sizes, cfg, f, cursor, before);
      var s := PlaceAll(sizes, cfg, f, cursor, before);
      if s.Ok? {
        ChoiceInBounds(sizes, cfg, s.value, WireSize(|piece|));
      }
    }
  }

  /** With ample sizes split planning fails only for want of a writable blob, or of any chunk size. */
  lemma SplitPlanErrors(sizes: seq<Result<u64>>, cfg: VaultConfig, cursor: nat, f: FileId, contents: seq<byte>)
    requires AmpleSizes(sizes, cfg.maxBlobSize) && cfg.splitFilesAcrossBlobs && cfg.maxChunkSize > 0
    requires |contents| < U64_LIMIT
    ensures var r := PlanSplit(sizes, cfg, cursor, f, contents);
      r.Ok? || r.error == if EffectiveChunkSize(cfg).Err? then InvalidConfig else NoWritableBlob
  {
    if EffectiveChunkSize(cfg).Ok? {
      var size := EffectiveChunkSize(cfg).value;
      var pieces := FilePieces(contents, size);
      FilePiecesJoin(contents, size);
      PieceCount(contents, size);
      hide FilePieces, EffectiveChunkSize, Finalize, PlaceAll, CompletionRefused, CompletionFits;
      PlacingInBounds(sizes, cfg, f, cursor, pieces);
      PlaceAllAccounts(sizes, cfg, f, cursor, pieces);
      PlaceAllCovers(sizes, cfg, f, cursor, pieces);
      var s := PlaceAll(sizes, cfg, f, cursor, pieces);
      if s.Ok? {
        FinalizeMeans(sizes, cfg, s.value);
        CompletionInBounds(sizes, cfg, s.value);
      }
    }
  }

  lemma CompletionInBounds(sizes: seq<Result<u64>>, cfg: VaultConfig, s: Planning)
    requires AmpleSizes(sizes, cfg.maxBlobSize) && Accounts(sizes, cfg, s) && s.plan != []
    requires LastBlob(s.plan) in s.planned
    ensures CompletionFits(sizes, cfg.maxBlobSize, s.plan) || CompletionRefused(sizes, cfg.maxBlobSize, s.plan)
  {
    hide LastBlob, Touched, PlannedBytes;
    var total := PlannedBytes(s.plan, LastBlob(s.plan)) + FILE_COMPLETE_ENTRY_WIRE_LEN;
    assert total < U64_LIMIT;
    assert total % U64_LIMIT == total;
  }

  /** The configuration allows the file: the bound takes a whole file, or there is a chunk size. */
  predicate Allowed(cfg: VaultConfig, contents: seq<byte>)
    requires cfg.maxChunkSize > 0
  {
    if cfg.splitFilesAcrossBlobs then EffectiveChunkSize(cfg).Ok? else WholeFileBytes(cfg, contents) <= cfg.maxBlobSize
  }

  /** With ample sizes a new file that the configuration allows is refused only for want of a writable blob. */
  lemma RefusedOnlyForRoom(v: VaultIndex, sizes: seq<Result<u64>>, cfg: VaultConfig, cursor: nat, f: FileId,
                           contents: seq<byte>)
    requires cfg.maxChunkSize > 0 && |contents| < U64_LIMIT && sizes != [] && AmpleSizes(sizes, cfg.maxBlobSize)
    requires FileChunks(v, f) == [] && Allowed(cfg, contents)
    ensures var r := Refused(v, sizes, cfg, cursor, f, contents); r == None || r == Some(NoWritableBlob)
  {
    hide FileChunks, PlanWhole, PlanSplit, EffectiveChunkSize, WholeFileBytes;
    if cfg.splitFilesAcrossBlobs {
      SplitPlanErrors(sizes, cfg, cursor, f, contents);
    } else {
      WholePlanIff(sizes, cfg, cursor, f, contents);
    }
  }

  // Writing

  /** Chunks are at most 2^38 - 64 bytes long, and the bound, the blob and its paddings stay clear of 2^64. */
  ghost predicate AmpleFor(cfg: VaultConfig, paddings: BlobConfig, size: int) {
    && cfg.maxChunkSize <= 0x40_0000_0000 - 64
    && Max(size, cfg.maxBlobSize) + cfg.maxBlobSize + 4096 + 57
       + paddings.relocationLeadingPadding + paddings.relocationTrailingPadding < U64_LIMIT
  }

  ghost predicate Ample(cfg: VaultConfig, seen: seq<Seen>) {
    forall k :: 0 <= k < |seen| ==> AmpleFor(cfg, seen[k].cfg, SizeOf(seen[k].history.records))
  }

  lemma GroupTaken(s: Seen, plan: seq<Assigned>, c: CompleteEntry, k: nat, ent: Entropy)
    requires s.Settled() && plan != [] && ChunksFit(Group(plan, k))
    requires 4096 + SizeOf(s.history.records) + Charged(plan, k)
             + s.cfg.relocationLeadingPadding + s.cfg.relocationTrailingPadding < U64_LIMIT
    ensures Writable(s, GroupRequest(plan, c, k), ent)
  {
    hide Seen.Settled, SizeOf, Group, LastBlob, PlannedBytes, ChunksFit, ChunkBytes;
    GroupBytes(plan, k);
    LastIndex(s);
    SizeParts(s);
  }

  lemma SizeParts(s: Seen)
    ensures SizeOf(s.history.records) == Ledger.Tail(s.history.records) - 4096 + |Plain(s.history.records)|
  {
  }

  lemma LastIndex(s: Seen)
    requires s.Settled()
    ensures s.history.commits != [] && Last(s.history).length == |Plain(s.history.records)|
  {
    hide SlotOk, FramesOn, RegionsIn, Placed, Cipher, SnapshotOk, Plain;
    assert CommitOk(s.keys, s.history, |s.history.commits| - 1);
    assert s.history.records[..s.history.commits[|s.history.commits| - 1].count] == s.history.records;
  }

  lemma {:induction false} GroupChunksFit(plan: seq<Assigned>, k: nat)
    requires forall i :: 0 <= i < |plan| ==> |plan[i].chunk.plaintext| <= MAX_CHUNK_PLAINTEXT_LEN
    ensures ChunksFit(Group(plan, k))
  {
    if plan == [] {
    } else {
      GroupChunksFit(plan[..|plan| - 1], k);
    }
  }

  /** With an ample configuration every blob takes what an accepted plan gives it. */
  lemma AmpleWrites(sizes: seq<Result<u64>>, v: VaultIndex, start: seq<Seen>, cfg: VaultConfig, cursor: nat, f: FileId,
                    contents: seq<byte>, plan: seq<Assigned>, c: CompleteEntry, ent: nat -> Entropy)
    requires AllSettled(start) && Fresh(v, ShelvesOf(start)) && Ample(cfg, start)
    requires PlannedFrom(sizes, v, start, cfg, cursor, f, contents, plan)
    ensures WritableUpTo(start, plan, c, ent, |start|)
  {
    hide Fresh, PlanFile, EstimatedSize, SizeOf, Seen.Settled, Writable, Touched, LastBlob, PlannedBytes, FileChunks,
         FilePieces, SliceSize, ChunksFit, GroupRequest, WithinCapacity;
    PlannedWithin(plan, sizes, cfg, cursor, f, contents);
    PlanCovers(sizes, cfg, cursor, f, contents);
    LastBlobIsLast(plan);
    SizesExact(v, start);
    var last := LastBlob(plan);
    assert Touched(plan, last) && AmpleFor(cfg, start[last].cfg, SizeOf(start[last].history.records));
    assert WithinCapacity(sizes, cfg.maxBlobSize, plan);
    forall k | 0 <= k < |start| && Touched(plan, k) ensures Writable(start[k], GroupRequest(plan, c, k), ent(k)) {
      AmpleTakes(sizes, start[k], cfg, plan, c, k, ent(k));
    }
  }

  lemma AmpleTakes(sizes: seq<Result<u64>>, s: Seen, cfg: VaultConfig, plan: seq<Assigned>, c: CompleteEntry, k: nat,
                   ent: Entropy)
    requires s.Settled() && plan != [] && k < |sizes| && Touched(plan, k) && WithinCapacity(sizes, cfg.maxBlobSize, plan)
    requires sizes[k] == Ok(SizeOf(s.history.records)) && AmpleFor(cfg, s.cfg, SizeOf(s.history.records))
    requires forall i :: 0 <= i < |plan| ==> |plan[i].chunk.plaintext| <= cfg.maxChunkSize
    ensures Writable(s, GroupRequest(plan, c, k), ent)
  {
    hide Seen.Settled, SizeOf, Touched, LastBlob, PlannedBytes, ChunksFit, GroupRequest, Writable;
    GroupChunksFit(plan, k);
    GroupTaken(s, plan, c, k, ent);
  }

  /** Ample blobs stay ample through puts. */
  lemma AmpleStays(cfg: VaultConfig, start: seq<Seen>, seen: seq<Seen>)
    requires Ample(cfg, start) && Bounded(start, seen, cfg.maxBlobSize)
    requires forall k :: 0 <= k < |start| ==> seen[k].cfg == start[k].cfg
    ensures Ample(cfg, seen)
  {
    hide SizeOf;
    forall k | 0 <= k < |seen| ensures AmpleFor(cfg, seen[k].cfg, SizeOf(seen[k].history.records)) {
      assert AmpleFor(cfg, start[k].cfg, SizeOf(start[k].history.records));
    }
  }

  lemma AmpleEstimates(v: VaultIndex, seen: seq<Seen>, cfg: VaultConfig, sizes: seq<Result<u64>>)
    requires AllSettled(seen) && Fresh(v, ShelvesOf(seen)) && Ample(cfg, seen) && |sizes| == |seen|
    requires forall k :: 0 <= k < |seen| ==> sizes[k] == EstimatedSize(v, seen[k].id)
    ensures AmpleSizes(sizes, cfg.maxBlobSize)
  {
    hide AllSettled, Fresh, EstimatedSize, SizeOf;
    SizesExact(v, seen);
    forall k | 0 <= k < |sizes|
      ensures sizes[k].Ok? && Max(sizes[k].value, cfg.maxBlobSize) + cfg.maxBlobSize + 57 < U64_LIMIT
    {
      assert AmpleFor(cfg, seen[k].cfg, SizeOf(seen[k].history.records));
    }
  }

  /** A put that is not refused stores its file, whatever is on the blobs, if they and the configuration are
      ample: so the put fails only when the planner refuses it. */
  lemma AmplePut(sizes: seq<Result<u64>>, v: VaultIndex, start: seq<Seen>, cfg: VaultConfig, cursor: nat, f: FileId,
                 contents: seq<byte>, plan: seq<Assigned>, c: CompleteEntry, ent: nat -> Entropy, m: nat, r: Result<()>)
    requires AllSettled(start) && Fresh(v, ShelvesOf(start)) && Ample(cfg, start)
    requires PlannedFrom(sizes, v, start, cfg, cursor, f, contents, plan) && Extent(start, plan, c, ent, m, r)
    ensures r.Ok?
  {
    hide *;
    AmpleWrites(sizes, v, start, cfg, cursor, f, contents, plan, c, ent);
    PutOkIff(start, plan, c, ent, m, r);
  }

  /** The blob has room for the whole file. */
  ghost predicate RoomFor(s: Seen, cfg: VaultConfig, contents: seq<byte>)
    requires cfg.maxChunkSize > 0
  {
    SizeOf(s.history.records) + WholeFileBytes(cfg, contents) <= cfg.maxBlobSize
  }

  /** In whole-file mode a new file is refused exactly if no blob has room for it. */
  lemma WholeRefusedIff(v: VaultIndex, start: seq<Seen>, sizes: seq<Result<u64>>, cfg: VaultConfig, cursor: nat,
                        f: FileId, contents: seq<byte>)
    requires AllSettled(start) && Fresh(v, ShelvesOf(start)) && Ample(cfg, start) && start != [] && |sizes| == |start|
    requires forall k :: 0 <= k < |start| ==> sizes[k] == EstimatedSize(v, start[k].id)
    requires cfg.maxChunkSize > 0 && !cfg.splitFilesAcrossBlobs && |contents| < U64_LIMIT && FileChunks(v, f) == []
    ensures Refused(v, sizes, cfg, cursor, f, contents).None? <==>
      exists k :: 0 <= k < |start| && RoomFor(start[k], cfg, contents)
  {
    AmpleEstimates(v, start, cfg, sizes);
    SizesExact(v, start);
    WholeEstimateIff(cfg, contents);
    hide AllSettled, Fresh, EstimatedSize, SizeOf, Ample, FileChunks, WholeFileBytes, CeilDiv, FilePieces,
         EstimatedWriteSize, AssignAll, Scan;
    if WholeFileBytes(cfg, contents) <= cfg.maxBlobSize {
      WholePlanIff(sizes, cfg, cursor, f, contents);
    }
  }
}
