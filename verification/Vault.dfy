/** The vault: blobs, the merged index, planning, writing and reading of files. */
module Vaults {
  import opened Basics
  import opened IndexCodec
  import opened Crypto
  import opened Disk
  import opened Ledger
  import opened Transaction
  import opened Commits
  import opened Handles
  import opened Blobs
  import opened Sorting
  import opened Cache
  import opened Planner
  import opened Placement
  import opened Estimates
  import opened Assembly
  import opened Filing
  import opened VaultState

  /** A read position in one file. */
  class FileCursor {
    const fileId: FileId
    var position: u64

    constructor (fileId: FileId)
      ensures this.fileId == fileId && position == 0
    {
      this.fileId := fileId;
      position := 0;
    }

    method Seek(position: u64)
      modifies this
      ensures this.position == position
    {
      this.position := position;
    }
  }

  ghost function SeenOf(b: Blob): Seen
    reads b, b.file
  {
    Seen(b.blobId, b.keys, b.config, b.file.state, b.file.log, b.file.history, b.committed)
  }

  /** The blobs are different objects on different files. */
  ghost predicate Separate(blobs: seq<Blob>) {
    forall i, j :: 0 <= i < j < |blobs| ==> blobs[i] != blobs[j] && blobs[i].file != blobs[j].file
  }

  ghost function HandlesOf(blobs: seq<Blob>): set<object> {
    set i | 0 <= i < |blobs| :: blobs[i]
  }

  ghost function FootprintOf(blobs: seq<Blob>): set<object> {
    (set i | 0 <= i < |blobs| :: blobs[i]) + (set i | 0 <= i < |blobs| :: blobs[i].file)
  }

  lemma FootprintMore(blobs: seq<Blob>, blob: Blob)
    ensures FootprintOf(blobs + [blob]) == FootprintOf(blobs) + {blob, blob.file}
  {
    var more := blobs + [blob];
    forall o | o in FootprintOf(blobs) + {blob, blob.file} ensures o in FootprintOf(more) {
      if i :| 0 <= i < |blobs| && (o == blobs[i] || o == blobs[i].file) {
        assert more[i] == blobs[i];
      } else {
        assert more[|blobs|] == blob;
      }
    }
  }

  ghost function LookAt(blobs: seq<Blob>): (seen: seq<Seen>)
    reads FootprintOf(blobs)
    ensures |seen| == |blobs|
    ensures forall i :: 0 <= i < |blobs| ==> seen[i].id == blobs[i].blobId && seen[i].cfg == blobs[i].config
  {
    seq(|blobs|, i requires 0 <= i < |blobs| reads FootprintOf(blobs) => SeenOf(blobs[i]))
  }

  lemma LookIs(blobs: seq<Blob>)
    ensures forall i :: 0 <= i < |blobs| ==> LookAt(blobs)[i] == SeenOf(blobs[i])
  {
  }

  /** The planner's estimate of every blob. */
  function SizesOf(v: VaultIndex, blobs: seq<Blob>): (sizes: seq<Result<u64>>)
    ensures |sizes| == |blobs|
  {
    seq(|blobs|, i requires 0 <= i < |blobs| => EstimatedSize(v, blobs[i].blobId))
  }

  function BlobIds(blobs: seq<Blob>): (ids: seq<BlobId>)
    ensures |ids| == |blobs|
  {
    seq(|blobs|, i requires 0 <= i < |blobs| => blobs[i].blobId)
  }

  class Vault {
    const vaultId: VaultId
    const config: VaultConfig
    const hash: seq<byte> -> Hash
    var blobs: seq<Blob>
    var index: VaultIndex
    var nextBlobCursor: nat
    /** The index last loaded for each blob. */
    ghost var loaded: map<BlobId, BlobIndex>
    /** Every file known to be stored: those this vault has put, and those known when it was opened. */
    ghost var files: map<FileId, StoredFile>

    ghost predicate Structured()
      reads `blobs
    {
      && ValidateConfig(config).Ok? && blobs != [] && Separate(blobs)
      && forall i :: 0 <= i < |blobs| ==> blobs[i].vaultId == vaultId
    }

    ghost function Look(): (seen: seq<Seen>)
      reads `blobs, FootprintOf(blobs)
      ensures |seen| == |blobs|
      ensures forall i :: 0 <= i < |blobs| ==> seen[i].id == blobs[i].blobId && seen[i].cfg == blobs[i].config
    {
      LookAt(blobs)
    }

    ghost predicate Valid()
      reads `blobs, `index, `loaded, FootprintOf(blobs)
    {
      Structured() && AllShort(Look()) && Agrees(index, loaded)
    }

    ghost predicate Coherent()
      reads `blobs, `index, `loaded, `files, FootprintOf(blobs)
    {
      Valid() && Consistent(hash, index, Look(), files)
    }

    /** What reading relies on: the index holds every file, though other handles may have committed since it
        was loaded and may be at work. */
    ghost predicate Intact()
      reads `blobs, `index, `files, FootprintOf(blobs)
    {
      Served(hash, index, Look(), files)
    }

    lemma CoherentServes()
      requires Coherent()
      ensures Intact()
    {
      hide Consistent, AllShort, Served;
      ConsistentServed(hash, index, Look(), files);
    }

    constructor (vaultId: VaultId, blobs: seq<Blob>, config: VaultConfig, hash: seq<byte> -> Hash,
                 ghost known: map<FileId, StoredFile>)
      requires ValidateConfig(config).Ok? && blobs != [] && Separate(blobs)
      requires AllShort(LookAt(blobs)) && forall i :: 0 <= i < |blobs| ==> blobs[i].vaultId == vaultId
      ensures Valid() && this.blobs == blobs && this.config == config && this.vaultId == vaultId && this.hash == hash
      ensures index == EMPTY_VAULT_INDEX && nextBlobCursor == 0 && files == known && loaded == map[]
    {
      this.vaultId, this.blobs, this.config, this.hash := vaultId, blobs, config, hash;
      index, nextBlobCursor := EMPTY_VAULT_INDEX, 0;
      loaded, files := map[], known;
      new;
      EmptyAgrees();
      assert LookAt(blobs) == old(LookAt(blobs));
    }

    // The merged index

    method ReplaceCachedBlobIndex(blobId: BlobId, blobIndex: BlobIndex)
      requires Agrees(index, loaded)
      modifies this`index, this`loaded
      ensures index == Replace(old(index), blobId, blobIndex) && loaded == old(loaded)[blobId := blobIndex]
      ensures Agrees(index, loaded) && Look() == old(Look())
    {
      ReplaceAgrees(index, loaded, blobId, blobIndex);
      index := Replace(index, blobId, blobIndex);
      loaded := loaded[blobId := blobIndex];
    }

    /** The first position of a blob. */
    function BlobPosition(blobId: BlobId): (r: Result<nat>)
      reads `blobs
      ensures match r
              case Ok(k) =>
                k < |blobs| && blobs[k].blobId == blobId && forall j :: 0 <= j < k ==> blobs[j].blobId != blobId
              case Err(e) =>
                e == BlobNotFound && forall j :: 0 <= j < |blobs| ==> blobs[j].blobId != blobId
    {
      var ids := BlobIds(blobs);
      assert forall j :: 0 <= j < |blobs| ==> ids[j] == blobs[j].blobId;
      PositionOf(ids, blobId, 0)
    }

    method RefreshSnapshot(k: nat) returns (r: Result<BlobIndex>)
      requires Structured() && k < |blobs|
      modifies blobs[k]
      ensures Look() == old(Look())[k := old(Look())[k].(committed := Look()[k].committed)]
      ensures var s := old(Look())[k];
        Inv(s.keys, s.state, s.history) ==> r == Ok(IndexOf(s.history.records)) && Look()[k].Settled()
    {
      hide Inv, SnapshotOk, Refresh, IndexOf;
      r := blobs[k].RefreshCommittedSnapshot();
    }

    /** Refreshes one blob's snapshot and loads its index. */
    method LoadBlob(k: nat) returns (r: Result<()>)
      requires Structured() && Agrees(index, loaded) && k < |blobs|
      modifies this`index, this`loaded, blobs[k]
      ensures Agrees(index, loaded)
      ensures Look() == old(Look())[k := old(Look())[k].(committed := Look()[k].committed)]
      ensures var s := old(Look())[k];
        Inv(s.keys, s.state, s.history) ==>
          && r.Ok? && Look()[k].Settled()
          && index == Replace(old(index), s.id, IndexOf(s.history.records))
    {
      hide Inv, Agrees, Replace, IndexOf, Seen.Settled, Separate;
      var blobIndex :- RefreshSnapshot(k);
      ReplaceCachedBlobIndex(blobs[k].blobId, blobIndex);
      return Ok(());
    }

    /** Reloads blob `i`, the ones before it having been reloaded since `start`. */
    method ReloadBlob(i: nat, ghost start: seq<Seen>) returns (r: Result<()>)
      requires Structured() && AllShort(Look()) && Agrees(index, loaded) && i < |blobs|
      requires SameDisks(start, Look())
      modifies this`index, this`loaded, blobs[i]
      ensures AllShort(Look()) && Agrees(index, loaded) && SameDisks(start, Look())
      ensures AllSound(start) && DistinctIds(ShelvesOf(start)) && old(Reloaded(start, Look(), loaded, i)) ==>
        r.Ok? && Reloaded(start, Look(), loaded, i + 1)
    {
      ghost var was, known := Look(), loaded;
      hide Inv, Agrees, Replace, IndexOf, LookAt, Seen.Settled, Reloaded, DistinctIds, AllShort, SameDisks, Separate,
           AllSound, ShelvesOf;
      var fetched := RefreshSnapshot(i);
      SnapshotOnly(start, was, Look(), i);
      if AllSound(start) && DistinctIds(ShelvesOf(start)) && Reloaded(start, was, known, i) {
        ReloadedNext(start, was, known, i, Look());
      }
      var blobIndex :- fetched;
      ghost var seen := Look();
      ReplaceCachedBlobIndex(blobs[i].blobId, blobIndex);
      assert Look() == seen;
      return Ok(());
    }

    /** Loads every blob's index anew.  Files that were held under any fresh view `before`, the vault's
        own or that of whoever stored them, are held afterwards. */
    method RefreshIndexes(ghost before: VaultIndex) returns (r: Result<()>)
      requires Valid()
      modifies this`index, this`loaded, HandlesOf(blobs)
      ensures Valid() && SameDisks(old(Look()), Look())
      ensures AllSound(old(Look())) && DistinctIds(ShelvesOf(old(Look()))) ==>
        r.Ok? && AllSettled(Look()) && Fresh(index, ShelvesOf(Look()))
      ensures old(Consistent(hash, before, Look(), files)) ==> r.Ok? && Coherent()
    {
      ghost var start := Look();
      r := ReloadAll();
      if Consistent(hash, before, start, files) {
        ConsistentSound(hash, before, start, files);
        RefreshedConsistent(hash, before, start, index, Look(), files);
      }
    }

    method ClearIndex()
      modifies this`index, this`loaded
      ensures index == EMPTY_VAULT_INDEX && loaded == map[] && Agrees(index, loaded) && Look() == old(Look())
    {
      index := EMPTY_VAULT_INDEX;
      loaded := map[];
      EmptyAgrees();
    }

    method ReloadAll() returns (r: Result<()>)
      requires Valid()
      modifies this`index, this`loaded, HandlesOf(blobs)
      ensures Valid() && SameDisks(old(Look()), Look())
      ensures AllSound(old(Look())) && DistinctIds(ShelvesOf(old(Look()))) ==>
        r.Ok? && AllSettled(Look()) && Fresh(index, ShelvesOf(Look()))
    {
      ghost var start := Look();
      ghost var sound := AllSound(start) && DistinctIds(ShelvesOf(start));
      hide Inv, Agrees, Fresh, LoadedUpTo, Replace, IndexOf, LookAt, Seen.Settled, Reloaded, DistinctIds, AllShort,
           SameDisks, Separate, AllSettled, AllSound;
      ClearIndex();
      ReloadedNone(start);
      SameItself(start);
      var i := 0;
      while i < |blobs|
        invariant 0 <= i <= |blobs| && Structured() && Agrees(index, loaded) && blobs == old(blobs)
        invariant SameDisks(start, Look()) && AllShort(Look())
        invariant sound ==> Reloaded(start, Look(), loaded, i)
      {
        var _ :- ReloadBlob(i, start);
        i := i + 1;
      }
      if sound {
        ReloadedAll(index, loaded, start, Look());
      }
      return Ok(());
    }

    /** Re-reads one blob after its file has changed.  A view that was fresh for what had been committed in
        the `past` is brought up to date in this blob and keeps the files that what it gained is not of. */
    method HandleBlobChanged(blobId: BlobId, ghost past: seq<Shelf>) returns (r: Result<()>)
      requires Valid()
      modifies this`index, this`loaded
      ensures Valid() && Look() == old(Look())
      ensures r.Err? ==> index == old(index)
      ensures forall b :: b != blobId ==> Project(index, b) == old(Project(index, b))
      ensures AllSound(Look()) && DistinctIds(ShelvesOf(Look())) ==>
        forall k :: 0 <= k < |blobs| && blobs[k].blobId == blobId ==>
          r.Ok? && Project(index, blobId) == IndexOf(ShelvesOf(Look())[k].records)
      ensures (forall k :: 0 <= k < |blobs| ==> blobs[k].blobId != blobId) ==> r == Err(BlobNotFound)
      ensures old(Coherent()) ==> Coherent()
      ensures AllSound(Look()) && old(Fresh(index, past)) && Extends(past, ShelvesOf(Look())) && |past| == |blobs| ==>
        forall k :: 0 <= k < |blobs| && blobs[k].blobId == blobId ==>
          && Fresh(index, past[k := ShelvesOf(Look())[k]])
          && (old(Intact()) && NoneOf(Gained(past, ShelvesOf(Look()), k), files.Keys) ==> Intact())
    {
      ghost var was, seen, coherent := index, Look(), Coherent();
      hide Inv, Agrees, Fresh, Holds, Backed, Replace, IndexOf, SnapshotOk, AllShort, Separate, Project, DistinctIds,
           Consistent, Served, Extends, NoneOf, LookAt;
      var k :- BlobPosition(blobId);
      r := RereadBlob(k);
      if DistinctIds(ShelvesOf(seen)) {
        OnlyPosition(ShelvesOf(seen), k);
      }
      if coherent {
        ConsistentSound(hash, was, seen, files);
        ReloadConsistent(hash, was, seen, files, k);
      }
      if Fresh(was, past) && Extends(past, ShelvesOf(seen)) && |past| == |blobs| {
        CatchesUp(hash, was, past, seen, k, files);
      }
    }

    method RereadBlob(k: nat) returns (r: Result<()>)
      requires Structured() && Agrees(index, loaded) && k < |blobs|
      modifies this`index, this`loaded
      ensures Agrees(index, loaded) && Look() == old(Look())
      ensures r.Err? ==> index == old(index) && loaded == old(loaded)
      ensures forall b :: b != blobs[k].blobId ==> Project(index, b) == old(Project(index, b))
      ensures var s := Look()[k];
        Inv(s.keys, s.state, s.history) ==>
          && r.Ok? && index == Replace(old(index), s.id, IndexOf(s.history.records))
          && Project(index, s.id) == IndexOf(s.history.records)
    {
      ghost var was := index;
      hide Inv, Agrees, Replace, IndexOf, Separate, Project;
      var blobIndex :- FetchIndex(k);
      ReplaceCachedBlobIndex(blobs[k].blobId, blobIndex);
      forall b ensures Project(index, b) == if b == blobs[k].blobId then blobIndex else Project(was, b) {
        ReplaceProject(was, blobs[k].blobId, b, blobIndex);
      }
      return Ok(());
    }

    method FetchIndex(k: nat) returns (r: Result<BlobIndex>)
      requires k < |blobs|
      ensures var s := Look()[k];
        Inv(s.keys, s.state, s.history) ==> r == Ok(IndexOf(s.history.records))
      ensures Look() == old(Look())
    {
      hide Inv, ReadActive, IndexOf;
      r := blobs[k].ReadIndex();
    }

    /** Attaches a blob and loads its index. */
    method AppendBlob(blob: Blob) returns (r: Result<()>)
      requires Valid() && |blob.file.state.bytes| < U64_LIMIT
      requires forall i :: 0 <= i < |blobs| ==> blobs[i] != blob && blobs[i].file != blob.file
      modifies this`blobs, this`index, this`loaded, blob
      ensures Valid()
      ensures blob.vaultId != vaultId ==> r == Err(InvalidConfig) && blobs == old(blobs) && index == old(index)
      ensures blob.vaultId == vaultId ==>
        && blobs == old(blobs) + [blob] && Look() == old(Look()) + [Look()[|old(blobs)|]]
        && FootprintOf(blobs) == old(FootprintOf(blobs)) + {blob, blob.file}
      ensures blob.vaultId == vaultId && Inv(blob.keys, blob.file.state, blob.file.history)
              && !Known(ShelvesOf(old(Look())), blob.blobId) ==>
        && r.Ok? && (old(Fresh(index, ShelvesOf(Look()))) ==> Fresh(index, ShelvesOf(Look())))
        && (old(Coherent()) && blob.file.history.records == [] ==> Coherent() && index == old(index))
    {
      if blob.vaultId != vaultId {
        return Err(InvalidConfig);
      }
      ghost var was, before := index, Look();
      r := AttachAndLoad(blob);
      hide Inv, Agrees, Replace, IndexOf, Known, Separate, Consistent, Fresh, Seen.Settled, ShelvesOf, AllShort;
      AppendedShort(before, Look());
      if !Known(ShelvesOf(before), blob.blobId) {
        AppendedConsistent(hash, was, before, Look()[|before|], files);
      }
    }

    method AttachAndLoad(blob: Blob) returns (r: Result<()>)
      requires Structured() && Agrees(index, loaded) && blob.vaultId == vaultId
      requires forall i :: 0 <= i < |blobs| ==> blobs[i] != blob && blobs[i].file != blob.file
      modifies this`blobs, this`index, this`loaded, blob
      ensures Structured() && Agrees(index, loaded)
      ensures blobs == old(blobs) + [blob] && FootprintOf(blobs) == old(FootprintOf(blobs)) + {blob, blob.file}
      ensures Look() == old(Look()) + [old(SeenOf(blob)).(committed := blob.committed)]
      ensures Inv(blob.keys, blob.file.state, blob.file.history) ==>
        && r.Ok? && Look()[|old(blobs)|].Settled()
        && index == Replace(old(index), blob.blobId, IndexOf(blob.file.history.records))
    {
      AttachBlob(blob);
      hide Inv, Agrees, Replace, IndexOf, Seen.Settled, Separate;
      r := LoadBlob(|blobs| - 1);
    }

    method AttachBlob(blob: Blob)
      requires Structured() && blob.vaultId == vaultId
      requires forall i :: 0 <= i < |blobs| ==> blobs[i] != blob && blobs[i].file != blob.file
      modifies this`blobs
      ensures Structured() && blobs == old(blobs) + [blob] && Look() == old(Look()) + [SeenOf(blob)]
      ensures FootprintOf(blobs) == old(FootprintOf(blobs)) + {blob, blob.file}
    {
      FootprintMore(blobs, blob);
      blobs := blobs + [blob];
    }

    // Planning

    function Sizes(): (sizes: seq<Result<u64>>)
      reads `blobs, `index
      ensures |sizes| == |blobs|
    {
      SizesOf(index, blobs)
    }

    /** Goes round the blobs from the cursor, or from the first one, and takes the first with room. */
    method ChooseBlob(planned: map<nat, u64>, estimatedNewBytes: nat) returns (r: Result<nat>)
      modifies this`nextBlobCursor
      ensures r == Choose(Sizes(), config, old(nextBlobCursor), planned, estimatedNewBytes)
      ensures nextBlobCursor == if r.Ok? then (r.value + 1) % |blobs| else old(nextBlobCursor)
    {
      hide EstimatedAfter, EstimatedSize;
      if |blobs| == 0 {
        return Err(NoWritableBlob);
      }
      if !config.splitFilesAcrossBlobs && estimatedNewBytes > config.maxBlobSize {
        return Err(FileExceedsBlobCapacity);
      }
      var start := if config.splitFilesAcrossBlobs && !config.stripeChunksAcrossBlobs then 0 else nextBlobCursor % |blobs|;
      var offset := 0;
      while offset < |blobs|
        invariant 0 <= offset <= |blobs| && nextBlobCursor == old(nextBlobCursor)
        invariant Scan(Sizes(), planned, estimatedNewBytes, config.maxBlobSize, start, offset)
               == Scan(Sizes(), planned, estimatedNewBytes, config.maxBlobSize, start, 0)
      {
        var k := Around(start, offset, |blobs|);
        var after :- EstimatedAfter(EstimatedSize(index, blobs[k].blobId), PlannedFor(planned, k), estimatedNewBytes);
        if after <= config.maxBlobSize {
          nextBlobCursor := (k + 1) % |blobs|;
          return Ok(k);
        }
        offset := offset + 1;
      }
      return Err(NoWritableBlob);
    }

    /** Charges the completion entry to the last planned blob, then checks every planned blob. */
    method FinalizePlannedFileComplete(planned: map<nat, u64>) returns (r: Result<()>)
      requires forall k :: k in planned ==> k < |blobs|
      ensures r == Finalize(Sizes(), config, planned)
    {
      hide EstimatedAfter, EstimatedSize, LastKey;
      var last := LastKey(planned, |blobs|);
      if last.None? {
        return Ok(());
      }
      var charged := planned[last.value := WrappingAdd(planned[last.value], FILE_COMPLETE_ENTRY_WIRE_LEN)];
      var k := 0;
      while k < |blobs|
        invariant 0 <= k <= |blobs|
        invariant FinalCheck(Sizes(), charged, config.maxBlobSize, k) == FinalCheck(Sizes(), charged, config.maxBlobSize, 0)
      {
        if k in charged {
          var after :- EstimatedAfter(EstimatedSize(index, blobs[k].blobId), charged[k], 0);
          if after > config.maxBlobSize {
            return Err(NoWritableBlob);
          }
        }
        k := k + 1;
      }
      return Ok(());
    }

    method PlanWholeFile(fileId: FileId, contents: seq<byte>) returns (r: Result<seq<Assigned>>)
      requires config.maxChunkSize > 0 && |contents| < U64_LIMIT
      modifies this`nextBlobCursor
      ensures r == PlanWhole(Sizes(), config, old(nextBlobCursor), fileId, contents)
      ensures !config.splitFilesAcrossBlobs ==>
        nextBlobCursor == CursorAfter(Sizes(), config, old(nextBlobCursor), fileId, contents)
    {
      hide Choose, EstimatedWriteSize, CeilDiv, EstimatedSize, Pieces, AssignAll, Sizes;
      var totalChunks := Max(1, CeilDiv(|contents|, config.maxChunkSize));
      var writeSize :- EstimatedWriteSize(|contents|, totalChunks);
      var k :- ChooseBlob(NOTHING_PLANNED, writeSize);
      if contents == [] {
        AssignOne(k, fileId, []);
        return Ok([Assigned(k, NewChunk(fileId, 0, []))]);
      }
      FilePiecesJoin(contents, config.maxChunkSize);
      var plan := AssignPieces(k, fileId, Pieces(contents, config.maxChunkSize));
      return Ok(plan);
    }

    /** Numbers the pieces of a file for one blob. */
    method AssignPieces(k: nat, fileId: FileId, pieces: seq<seq<byte>>) returns (plan: seq<Assigned>)
      requires |pieces| < U64_LIMIT
      ensures AssignAll(k, fileId, pieces) == Ok(plan)
    {
      plan := [];
      var sequenceNumber: u64 := 0;
      var i := 0;
      while i < |pieces|
        invariant 0 <= i <= |pieces| && sequenceNumber == i
        invariant AssignAll(k, fileId, pieces[..i]) == Ok(plan)
      {
        assert pieces[..i + 1][..i] == pieces[..i];
        plan := plan + [Assigned(k, NewChunk(fileId, sequenceNumber, pieces[i]))];
        var next := CheckedAdd(sequenceNumber, 1);
        sequenceNumber := next.value; // there are fewer pieces than 2^64
        i := i + 1;
      }
      assert pieces[..i] == pieces;
    }

    /** Chooses a blob for one chunk and records it in the plan. */
    method PlaceChunk(fileId: FileId, piece: seq<byte>, planned: map<nat, u64>, plan: seq<Assigned>, sequenceNumber: u64)
        returns (r: Result<Planning>)
      modifies this`nextBlobCursor
      ensures r == Place(Sizes(), config, fileId, Planning(old(nextBlobCursor), planned, plan, sequenceNumber), piece)
      ensures r.Ok? ==> r.value.cursor == nextBlobCursor
      ensures nextBlobCursor
           == PieceCursor(Sizes(), config, Planning(old(nextBlobCursor), planned, plan, sequenceNumber), piece)
    {
      hide Choose, Sizes;
      var estimate :- EstimatedChunkSize(|piece|);
      var k :- ChooseBlob(planned, estimate);
      var next :- CheckedAdd(sequenceNumber, 1);
      return Ok(Planning(nextBlobCursor, planned[k := WrappingAdd(PlannedFor(planned, k), estimate)],
                         plan + [Assigned(k, NewChunk(fileId, sequenceNumber, piece))], next));
    }

    method PlanSplitFile(fileId: FileId, contents: seq<byte>) returns (r: Result<seq<Assigned>>)
      requires config.maxChunkSize > 0
      modifies this`nextBlobCursor
      ensures r == PlanSplit(Sizes(), config, old(nextBlobCursor), fileId, contents)
      ensures config.splitFilesAcrossBlobs ==>
        nextBlobCursor == CursorAfter(Sizes(), config, old(nextBlobCursor), fileId, contents)
    {
      var chunkSize :- EffectiveChunkSize(config);
      ghost var sizes, start := Sizes(), nextBlobCursor;
      hide Place, PieceCursor, Sizes, Finalize, Pieces, EffectiveChunkSize;
      var pieces := FilePieces(contents, chunkSize);
      var now := Planning(nextBlobCursor, map[], [], 0);
      assert PlaceAll(sizes, config, fileId, start, pieces[..0]) == Ok(now);
      hide PlaceAll;
      var i := 0;
      while i < |pieces|
        invariant 0 <= i <= |pieces| && Sizes() == sizes && now.cursor == nextBlobCursor
        invariant PlaceAll(sizes, config, fileId, start, pieces[..i]) == Ok(now)
      {
        PlaceNext(sizes, config, fileId, start, pieces, i);
        now :- PlaceChunk(fileId, pieces[i], now.planned, now.plan, now.next);
        i := i + 1;
      }
      assert pieces[..i] == pieces;
      PlaceAllAccounts(sizes, config, fileId, start, pieces);
      PlacedCursor(sizes, config, fileId, start, pieces);
      var _ :- FinalizePlannedFileComplete(now.planned);
      return Ok(now.plan);
    }

    /** Cuts a file into chunks and gives each a blob. */
    method PlanFileChunks(fileId: FileId, contents: seq<byte>) returns (r: Result<seq<Assigned>>)
      requires config.maxChunkSize > 0 && |contents| < U64_LIMIT
      modifies this`nextBlobCursor
      ensures r == PlanFile(Sizes(), config, old(nextBlobCursor), fileId, contents)
      ensures nextBlobCursor == CursorAfter(Sizes(), config, old(nextBlobCursor), fileId, contents)
    {
      if !config.splitFilesAcrossBlobs {
        r := PlanWholeFile(fileId, contents);
      } else {
        r := PlanSplitFile(fileId, contents);
      }
    }

    // Writing

    method WriteBlob(k: nat, req: Request, ent: Entropy) returns (r: Result<WriteResult>)
      requires Structured() && AllShort(Look()) && k < |blobs|
      modifies blobs[k], blobs[k].file
      ensures AllShort(Look()) && Look() == old(Look())[k := Look()[k]]
      ensures r.Err? ==> Look() == old(Look())
      ensures old(Look())[k].Settled() ==> Written(old(Look())[k], Look()[k], req, ent, r)
    {
      hide Inv, SnapshotOk, Tx.Ready, Tx.Fits, Tx.Overflows, Tx.Script, Tx.After, Tx.Records, Tx.NewChunkRecords,
           Tx.NewLocator, IndexOf, ApplyAll, ChunksFit, LookAt;
      LookIs(blobs);
      if Look()[k].Settled() {
        SettledCommits(Look()[k]);
      }
      r := blobs[k].WriteChunks(req, ent);
      LookIs(blobs);
    }

    /** The chunks of each blob, in order. */
    method GroupByBlob(plan: seq<Assigned>) returns (groups: map<nat, seq<NewChunk>>)
      ensures Grouping(plan, groups)
    {
      groups := map[];
      var i := 0;
      while i < |plan|
        invariant 0 <= i <= |plan|
        invariant forall k :: k in groups <==> Touched(plan[..i], k)
        invariant forall k :: k in groups ==> groups[k] == Group(plan[..i], k)
      {
        var a := plan[i];
        ghost var before := plan[..i];
        assert plan[..i + 1] == before + [a];
        if !Touched(before, a.blob) {
          Untouched(before, a.blob);
        }
        forall k: nat
          ensures Touched(plan[..i + 1], k) <==> Touched(before, k) || k == a.blob
          ensures Group(plan[..i + 1], k) == Group(before, k) + if k == a.blob then [a.chunk] else []
        {
          PlannedBytesSnoc(before, a, k);
          GroupNext(before, a, k);
        }
        hide Touched, Group;
        groups := groups[a.blob := (if a.blob in groups then groups[a.blob] else []) + [a.chunk]];
        i := i + 1;
      }
      assert plan[..i] == plan;
    }

    /** Writes one blob's group as one transaction and loads the blob's new index. */
    method WriteGroup(k: nat, req: Request, ent: Entropy, ghost v0: VaultIndex, ghost start: seq<Seen>,
                      ghost plan: seq<Assigned>, ghost c: CompleteEntry) returns (r: Result<()>)
      requires Structured() && AllShort(Look()) && Agrees(index, loaded) && k < |blobs|
      modifies this`index, this`loaded, blobs[k], blobs[k].file
      ensures AllShort(Look()) && Agrees(index, loaded)
      ensures r.Err? ==> Look() == old(Look()) && index == old(index)
      ensures Look() == old(Look())[k := Look()[k]]
      ensures old(Writing(v0, start, plan, c, k, index, Look())) && plan != [] && req == GroupRequest(plan, c, k) ==>
        && (r.Ok? <==> old(Writable(Look()[k], req, ent)))
        && (r.Ok? ==> Writing(v0, start, plan, c, k + 1, index, Look()))
        && (r.Err? ==> Refuses(old(Look())[k], req, ent, r.error))
        && (r.Err? ==> r.error == IntegerOverflow || r.error == InvalidChunkSize)
    {
      hide *;
      ghost var seen, v := Look(), index;
      ghost var writing := Writing(v0, start, plan, c, k, v, seen) && plan != [] && req == GroupRequest(plan, c, k);
      if writing {
        WritingSettled(v0, start, plan, c, k, v, seen);
      }
      var result := WriteBlob(k, req, ent);
      if writing {
        WrittenErrors(seen[k], Look()[k], req, ent, result);
      }
      if result.Err? {
        return Err(result.error);
      }
      ReplaceCachedBlobIndex(blobs[k].blobId, result.value.index);
      if writing {
        WritingStep(v0, start, plan, c, k, v, seen, Look(), req, ent, result.value);
      }
      return Ok(());
    }

    /** Writes each blob's group, in order of position, the completion going with the last.  It stops at
        the first blob that does not take its group, after the first `m` blobs. */
    method WriteGroups(plan: seq<Assigned>, complete: CompleteEntry, ent: nat -> Entropy)
        returns (r: Result<()>, ghost m: nat)
      requires Valid() && plan != [] && forall i :: 0 <= i < |plan| ==> plan[i].blob < |blobs|
      modifies this`index, this`loaded, FootprintOf(blobs)
      ensures Valid()
      ensures old(AllSettled(Look()) && Fresh(index, ShelvesOf(Look()))) ==>
        && Writing(old(index), old(Look()), plan, complete, m, index, Look())
        && m <= |blobs| && Extent(old(Look()), plan, complete, ent, m, r)
        && (r.Err? ==> m <= LastBlob(plan) && (r.error == IntegerOverflow || r.error == InvalidChunkSize))
    {
      ghost var start, v0 := Look(), index;
      ghost var settled := AllSettled(start) && Fresh(v0, ShelvesOf(start));
      hide Seen.Settled, AllShort, Agrees, Fresh, AllSettled, Separate, Writing, Grouping, LastKey, LastBlob, Touched,
           GroupRequest, ShelvesOf, Writable, Refuses;
      r, m := Err(InvalidConfig), 0;
      var groups := GroupByBlob(plan);
      var last := LastKey(groups, |blobs|);
      LastGroup(plan, groups, |blobs|);
      if last.None? {
        return;
      }
      if settled {
        WritingStart(v0, start, plan, complete);
      }
      var k := 0;
      while k < |blobs|
        invariant 0 <= k <= |blobs| && Structured() && AllShort(Look()) && Agrees(index, loaded)
        invariant blobs == old(blobs)
        invariant settled ==> Writing(v0, start, plan, complete, k, index, Look())
        invariant forall j :: k <= j < |start| ==> Look()[j] == start[j]
        invariant settled ==> WritableUpTo(start, plan, complete, ent, k)
      {
        GroupAt(plan, groups, complete, k);
        if k in groups {
          var completes := if k == last.value then [complete] else [];
          r := WriteGroup(k, Request(groups[k], completes), ent(k), v0, start, plan, complete);
          if r.Err? {
            m := k;
            return;
          }
        } else if settled {
          WritingSkip(v0, start, plan, complete, k, index, Look());
        }
        if settled {
          WritableNext(start, plan, complete, ent, k);
        }
        k := k + 1;
      }
      return Ok(()), |blobs|;
    }

    /** Writes a planned file; `after` is what the vault then holds. */
    method StorePlan(fileId: FileId, contents: seq<byte>, plan: seq<Assigned>, ent: nat -> Entropy, ghost cursor: nat)
        returns (r: Result<()>, ghost after: map<FileId, StoredFile>)
      requires Valid() && |contents| < U64_LIMIT && FileChunks(index, fileId) == []
      requires PlanFile(Sizes(), config, cursor, fileId, contents) == Ok(plan)
      modifies this`index, this`loaded, FootprintOf(blobs)
      ensures Valid()
      ensures old(Coherent()) ==>
        && Consistent(hash, index, Look(), after)
        && PutOutcome(old(Look()), old(files), index, Look(), after, fileId, contents, plan,
                      CompletionOf(fileId, plan, contents, hash), ent, config, r)
        && OthersListed(old(index), index, fileId)
    {
      after := files;
      ghost var coherent, start, v0, files0 := Coherent(), Look(), index, files;
      ghost var sizes := Sizes();
      assert PlannedFrom(sizes, v0, start, config, cursor, fileId, contents, plan);
      hide PlanFile, Consistent, Writing, PutOutcome, SizesOf, FileChunks, Agrees, AllShort, AllSettled, Fresh,
           Separate,
           Seen.Settled, ShelvesOf, PlannedFrom, Extent, OthersListed;
      PutBounds(sizes, v0, start, config, cursor, fileId, contents, plan);
      if coherent {
        ConsistentParts(hash, v0, start, files0);
      }
      var complete := CompletionOf(fileId, plan, contents, hash);
      ghost var m;
      r, m := WriteGroups(plan, complete, ent);
      if coherent {
        after := PutEnds(hash, sizes, v0, start, files0, plan, complete, m, index, Look(), fileId, contents, config,
                         cursor, ent, r);
      }
    }

    /** Stores a file: plans its chunks and writes them. */
    method PutFile(fileId: FileId, contents: seq<byte>, ent: nat -> Entropy) returns (r: Result<()>)
      requires Valid() && |contents| < U64_LIMIT
      modifies this`index, this`loaded, this`files, this`nextBlobCursor, FootprintOf(blobs)
      ensures Valid()
      ensures Refused(old(index), old(Sizes()), config, old(nextBlobCursor), fileId, contents).Some? ==>
        && r == Err(Refused(old(index), old(Sizes()), config, old(nextBlobCursor), fileId, contents).value)
        && Look() == old(Look()) && index == old(index) && files == old(files)
      ensures nextBlobCursor == if FileChunks(old(index), fileId) != [] then old(nextBlobCursor)
                                else CursorAfter(old(Sizes()), config, old(nextBlobCursor), fileId, contents)
      ensures old(Coherent()) ==> Coherent() && OthersListed(old(index), index, fileId)
      ensures old(Coherent()) && Refused(old(index), old(Sizes()), config, old(nextBlobCursor), fileId, contents).None? ==>
        var plan := PlanFile(old(Sizes()), config, old(nextBlobCursor), fileId, contents).value;
        PutOutcome(old(Look()), old(files), index, Look(), files, fileId, contents, plan,
                   CompletionOf(fileId, plan, contents, hash), ent, config, r)
    {
      ghost var coherent, start, cursor := Coherent(), Look(), nextBlobCursor;
      hide PlanFile, FileChunks, FileCompletes, Consistent, PutOutcome, Agrees, AllShort, Separate, CursorAfter;
      if FileChunks(index, fileId) != [] {
        return Err(FileAlreadyExists);
      }
      var plan :- PlanFileChunks(fileId, contents);
      assert Look() == start;
      ghost var after;
      r, after := StorePlan(fileId, contents, plan, ent, cursor);
      if coherent {
        files := after;
      }
    }

    // Reading

    method OrderedFileChunks(fileId: FileId) returns (r: Result<seq<Located<ChunkEntry>>>)
      ensures r == OrderedChunks(index, fileId) && Look() == old(Look())
    {
      var mine := FileChunks(index, fileId);
      if mine == [] {
        return Err(FileNotFound);
      }
      var sorted := SortBy(SequenceKey, mine);
      var expected := 0;
      while expected < |sorted|
        invariant 0 <= expected <= |sorted| && Numbered(sorted[..expected])
      {
        assert sorted[..expected + 1] == sorted[..expected] + [sorted[expected]];
        if sorted[expected].entry.sequenceNumber != expected {
          return Err(IncompleteFile);
        }
        expected := expected + 1;
      }
      assert sorted[..expected] == sorted;
      return Ok(sorted);
    }

    method FileSize(fileId: FileId) returns (r: Result<u64>)
      ensures FileChunks(index, fileId) == [] ==> r == Err(FileNotFound)
      ensures FileChunks(index, fileId) != [] && !AllKeys(SequenceKey, FileChunks(index, fileId)) ==>
        r == Err(IncompleteFile)
      ensures OrderedChunks(index, fileId).Ok? ==>
        var total := TotalLength(OrderedChunks(index, fileId).value);
        r == if total < U64_LIMIT then Ok(total) else Err(IntegerOverflow)
      ensures Intact() && fileId in files ==> r == Ok(|files[fileId].Contents()|)
      ensures Look() == old(Look())
    {
      ghost var seen := Look();
      if Intact() && fileId in files {
        HeldFile(hash, index, seen, files, fileId);
      }
      OrderedIff(index, fileId);
      hide OrderedChunks, LengthSum, Consistent, AllShort, StoredFile.Contents, EnsureFileComplete, LatestComplete,
           ChunksHold;
      var chunks :- OrderedFileChunks(fileId);
      LengthSumIs(chunks);
      r := LengthSum(chunks);
    }

    /** Reads one chunk from the blob that lists it. */
    method ReadLocated(x: Located<ChunkEntry>) returns (r: Result<seq<byte>>)
      ensures r == LocatedRead(Look(), x) && Look() == old(Look())
    {
      hide ReadChunkAt, Readable;
      ghost var seen := Look();
      assert BlobIds(blobs) == Ids(seen);
      var k :- BlobPosition(x.blobId);
      r := blobs[k].ReadChunk(x.entry);
      assert Look() == seen;
    }

    /** Collects the bytes from `offset` to `end` of consecutive chunks. */
    method ReadSlices(chunks: seq<Located<ChunkEntry>>, offset: nat, end: nat, ghost pieces: seq<seq<byte>>)
        returns (r: Result<seq<byte>>)
      requires offset < end
      ensures PiecesRead(Look(), chunks, pieces) && end <= |Join(pieces)| < U64_LIMIT ==> r == Ok(Join(pieces)[offset..end])
      ensures Look() == old(Look())
    {
      ghost var seen := Look();
      ghost var held := PiecesRead(seen, chunks, pieces) && end <= |Join(pieces)| < U64_LIMIT;
      FirstSlice(pieces, offset, end);
      hide LookAt, Join, SlicedTo, LocatedRead;
      var out: seq<byte> := [];
      var chunkStart: u64 := 0;
      var i := 0;
      while i < |chunks|
        invariant 0 <= i <= |chunks| && Look() == seen
        invariant held ==> chunkStart == |Join(pieces[..i])| && SlicedTo(Join(pieces), offset, end, chunkStart, out)
      {
        if held {
          SliceGrows(pieces, i, offset, end, chunkStart, out);
        }
        var chunkEnd :- CheckedAdd(chunkStart, chunks[i].entry.plaintextLength);
        if chunkEnd > offset {
          if chunkStart >= end {
            break;
          }
          LocatedLength(seen, chunks[i]);
          var plaintext :- ReadLocated(chunks[i]);
          out := out + plaintext[SaturatingSub(offset, chunkStart)..Min(end, chunkEnd) - chunkStart];
        }
        chunkStart := chunkEnd;
        i := i + 1;
      }
      if held {
        SliceDone(pieces, i, offset, end, chunkStart, out);
      }
      return Ok(out);
    }

    /** Reads part of a file: of a file put, exactly that slice of its contents. */
    method ReadFileRange(fileId: FileId, offset: u64, length: u64) returns (r: Result<seq<byte>>)
      ensures FileChunks(index, fileId) == [] ==> r == Err(FileNotFound)
      ensures FileChunks(index, fileId) != [] && !CompleteIn(index, fileId) ==> r == Err(IncompleteFile)
      ensures r.Ok? ==> CompleteIn(index, fileId) && AllKeys(SequenceKey, FileChunks(index, fileId))
      ensures Intact() && fileId in files ==> r == ReadSlice(files[fileId].Contents(), offset, length)
      ensures Look() == old(Look())
    {
      ghost var seen := Look();
      ghost var pieces := if fileId in files then files[fileId].pieces else [];
      if Intact() && fileId in files {
        HeldFile(hash, index, seen, files, fileId);
        HeldPieces(hash, index, seen, files, fileId);
      }
      CompleteIff(index, fileId);
      OrderedIff(index, fileId);
      hide OrderedChunks, LengthSum, EnsureFileComplete, LatestComplete, Consistent, AllShort, ChunksHold, PiecesRead,
           Join,
           LookAt, ReadSlice;
      var _ :- EnsureFileComplete(index, fileId);
      var chunks :- OrderedFileChunks(fileId);
      r := ReadRangeOf(chunks, offset, length, pieces);
    }

    method ReadRangeOf(chunks: seq<Located<ChunkEntry>>, offset: u64, length: u64, ghost pieces: seq<seq<byte>>)
        returns (r: Result<seq<byte>>)
      ensures PiecesRead(Look(), chunks, pieces) && |Join(pieces)| < U64_LIMIT && LengthSum(chunks) == Ok(|Join(pieces)|) ==>
        r == ReadSlice(Join(pieces), offset, length)
      ensures Look() == old(Look())
    {
      hide LengthSum, PiecesRead, Join;
      var fileSize :- LengthSum(chunks);
      if offset >= fileSize || length == 0 {
        return Ok([]);
      }
      var last :- CheckedAdd(offset, length);
      r := ReadSlices(chunks, offset, Min(last, fileSize), pieces);
    }

    /** Reads a whole file and compares it with the hash of its completion. */
    method ReadFile(fileId: FileId) returns (r: Result<seq<byte>>)
      ensures Intact() && fileId in files ==> r == Ok(files[fileId].Contents())
      ensures r.Ok? ==>
        && CompleteIn(index, fileId) && AllKeys(SequenceKey, FileChunks(index, fileId))
        && LatestComplete(index, fileId).Ok? && hash(r.value) == LatestComplete(index, fileId).value.entry.contentHash
      ensures Look() == old(Look())
    {
      ghost var seen := Look();
      if Intact() && fileId in files {
        HeldFile(hash, index, seen, files, fileId);
        WholeSlice(files[fileId].Contents());
      }
      hide OrderedChunks, LengthSum, EnsureFileComplete, LatestComplete, StoredFile.Contents, Consistent, AllShort,
           ChunksHold,
           LookAt, ReadSlice;
      var size :- FileSize(fileId);
      var contents :- ReadFileRange(fileId, 0, size);
      var complete :- LatestComplete(index, fileId);
      if hash(contents) != complete.entry.contentHash {
        return Err(FileHashMismatch);
      }
      return Ok(contents);
    }

    method OpenFile(fileId: FileId) returns (r: Result<FileCursor>)
      ensures r.Ok? <==> CompleteIn(index, fileId)
      ensures r.Ok? ==> fresh(r.value) && r.value.fileId == fileId && r.value.position == 0
      ensures r.Err? ==> r.error == if FileChunks(index, fileId) == [] then FileNotFound else IncompleteFile
    {
      CompleteIff(index, fileId);
      var _ :- EnsureFileComplete(index, fileId);
      var cursor := new FileCursor(fileId);
      return Ok(cursor);
    }

    /** Reads on from a cursor and moves it past what was read. */
    method ReadFromFile(cursor: FileCursor, length: u64) returns (r: Result<seq<byte>>)
      modifies cursor
      ensures Look() == old(Look())
      ensures Intact() && cursor.fileId in files ==>
        match ReadOn(files[cursor.fileId].Contents(), old(cursor.position), length)
        case Ok(next) => r == Ok(next.0) && cursor.position == next.1
        case Err(e) => r == Err(e) && cursor.position == old(cursor.position)
    {
      hide Consistent, AllShort, StoredFile.Contents;
      var bytes :- ReadFileRange(cursor.fileId, cursor.position, length);
      cursor.position :- CheckedAdd(cursor.position, |bytes|);
      return Ok(bytes);
    }

    /** Opens a vault on blobs that are already open.  The files `known` to be stored on them, under
        the view `before` of whoever stored them, are files of the vault. */
    static method Open(vaultId: VaultId, blobs: seq<Blob>, config: VaultConfig, hash: seq<byte> -> Hash,
                       ghost before: VaultIndex, ghost known: map<FileId, StoredFile>) returns (r: Result<Vault>)
      requires Separate(blobs) && AllShort(LookAt(blobs))
      modifies HandlesOf(blobs)
      ensures SameDisks(old(LookAt(blobs)), LookAt(blobs))
      ensures !config.cacheIndexesOnOpen ==> LookAt(blobs) == old(LookAt(blobs))
      ensures ValidateConfig(config).Err? || blobs == [] || (exists i :: 0 <= i < |blobs| && blobs[i].vaultId != vaultId)
        ==> r == Err(InvalidConfig)
      ensures r.Ok? ==>
        && fresh(r.value) && r.value.Valid() && r.value.blobs == blobs && r.value.vaultId == vaultId
        && r.value.config == config && r.value.hash == hash && r.value.files == known
      ensures
        (&& ValidateConfig(config).Ok? && blobs != [] && (forall i :: 0 <= i < |blobs| ==> blobs[i].vaultId == vaultId)
         && !config.cacheIndexesOnOpen) ==> r.Ok?
      ensures ValidateConfig(config).Ok? && blobs != [] && (forall i :: 0 <= i < |blobs| ==> blobs[i].vaultId == vaultId)
              && config.cacheIndexesOnOpen && AllSound(old(LookAt(blobs))) && DistinctIds(ShelvesOf(old(LookAt(blobs)))) ==>
        && r.Ok? && Fresh(r.value.index, ShelvesOf(r.value.Look()))
        && (Backed(r.value.index) && known == map[] ==> r.value.Coherent())
      ensures ValidateConfig(config).Ok? && blobs != [] && (forall i :: 0 <= i < |blobs| ==> blobs[i].vaultId == vaultId)
              && config.cacheIndexesOnOpen && old(Consistent(hash, before, LookAt(blobs), known)) ==>
        r.Ok? && r.value.Coherent()
    {
      hide Inv, Agrees, Fresh, Holds, Backed, SnapshotOk, DistinctIds, AllShort, Separate, AllSettled, SameDisks,
           AllSound;
      SameItself(LookAt(blobs));
      var _ :- ValidateConfig(config);
      if blobs == [] {
        return Err(InvalidConfig);
      }
      var i := 0;
      while i < |blobs|
        invariant 0 <= i <= |blobs| && forall j :: 0 <= j < i ==> blobs[j].vaultId == vaultId
      {
        if blobs[i].vaultId != vaultId {
          return Err(InvalidConfig);
        }
        i := i + 1;
      }
      ghost var start := LookAt(blobs);
      var vault := new Vault(vaultId, blobs, config, hash, known);
      assert vault.Look() == start;
      if config.cacheIndexesOnOpen {
        var _ :- vault.RefreshIndexes(before);
      }
      return Ok(vault);
    }
  }
}
