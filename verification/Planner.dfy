/** How a file is cut into chunks and spread over blobs under a size bound. */
module Planner {
  import opened Basics
  import opened IndexCodec
  import opened Transaction

  const CHUNK_FRAME_OVERHEAD: nat := 40
  const CHUNK_ENTRY_WIRE_LEN: nat := 73
  const FILE_COMPLETE_ENTRY_WIRE_LEN: nat := 57
  const SPLIT_CHUNK_WRITE_OVERHEAD: nat :=
    CHUNK_FRAME_OVERHEAD + CHUNK_ENTRY_WIRE_LEN + FILE_COMPLETE_ENTRY_WIRE_LEN

  datatype VaultConfig = VaultConfig(
    maxChunkSize: u64, maxBlobSize: u64,
    splitFilesAcrossBlobs: bool, stripeChunksAcrossBlobs: bool, cacheIndexesOnOpen: bool)

  /** A chunk and the position of the blob it goes to. */
  datatype Assigned = Assigned(blob: nat, chunk: NewChunk)

  /** The planner's variables: the next blob to try, the bytes planned per blob, the plan so far and
      the next sequence number. */
  datatype Planning = Planning(cursor: nat, planned: map<nat, u64>, plan: seq<Assigned>, next: u64)

  const NOTHING_PLANNED: map<nat, u64> := map[]

  function CeilDiv(n: nat, d: nat): nat
    requires d > 0
  {
    (n + d - 1) / d
  }

  /** Consecutive slices of `size` bytes, the last one possibly shorter. */
  function Pieces(contents: seq<byte>, size: nat): seq<seq<byte>>
    requires size > 0
    decreases |contents|
  {
    if contents == [] then []
    else
      var n := Min(size, |contents|);
      [contents[..n]] + Pieces(contents[n..], size)
  }

  /** What a file is stored as: its slices, or one empty chunk. */
  function FilePieces(contents: seq<byte>, size: nat): (pieces: seq<seq<byte>>)
    requires size > 0
    ensures pieces != []
  {
    if contents == [] then [[]] else Pieces(contents, size)
  }

  function WrappingAdd(a: u64, b: u64): u64 {
    (a + b) % U64_LIMIT
  }

  // Estimates

  function EstimatedChunkSize(plaintextLen: nat): Result<u64> {
    var overhead :- CheckedAdd(CHUNK_FRAME_OVERHEAD, CHUNK_ENTRY_WIRE_LEN);
    CheckedAdd(plaintextLen, overhead)
  }

  function EstimatedWriteSize(plaintextLen: nat, chunkCount: nat): Result<u64> {
    var frames :- CheckedMul(chunkCount, CHUNK_FRAME_OVERHEAD);
    var entries :- CheckedMul(chunkCount, CHUNK_ENTRY_WIRE_LEN);
    var a :- CheckedAdd(plaintextLen, frames);
    var b :- CheckedAdd(entries, FILE_COMPLETE_ENTRY_WIRE_LEN);
    CheckedAdd(a, b)
  }

  function EffectiveChunkSize(cfg: VaultConfig): (r: Result<u64>)
    ensures r.Ok? ==> 0 < r.value <= cfg.maxChunkSize && r.value + SPLIT_CHUNK_WRITE_OVERHEAD <= cfg.maxBlobSize
  {
    if cfg.maxBlobSize <= SPLIT_CHUNK_WRITE_OVERHEAD then Err(InvalidConfig)
    else
      var size := Min(cfg.maxChunkSize, cfg.maxBlobSize - SPLIT_CHUNK_WRITE_OVERHEAD);
      if size == 0 then Err(InvalidConfig) else Ok(size)
  }

  function PlannedFor(planned: map<nat, u64>, k: nat): u64 {
    if k in planned then planned[k] else 0
  }

  function EstimatedAfter(size: Result<u64>, planned: u64, extra: nat): Result<u64> {
    var now :- size;
    var withPlanned :- CheckedAdd(now, planned);
    CheckedAdd(withPlanned, extra)
  }

  // Choosing a blob

  function Start(cfg: VaultConfig, cursor: nat, n: nat): (start: nat)
    requires n > 0
    ensures start < n
  {
    if cfg.splitFilesAcrossBlobs && !cfg.stripeChunksAcrossBlobs then 0 else cursor % n
  }

  /** The position `offset` steps after `start`, going round. */
  function Around(start: nat, offset: nat, n: nat): (k: nat)
    requires n > 0
    ensures k < n
  {
    (start + offset) % n
  }

  /** The first blob with room, going round from `start + offset`. */
  function Scan(sizes: seq<Result<u64>>, planned: map<nat, u64>, extra: nat, max: nat, start: nat, offset: nat)
      : (r: Result<nat>)
    requires offset <= |sizes|
    ensures r.Ok? ==> r.value < |sizes|
    decreases |sizes| - offset
  {
    if offset == |sizes| then Err(NoWritableBlob)
    else
      var index := Around(start, offset, |sizes|);
      var after :- EstimatedAfter(sizes[index], PlannedFor(planned, index), extra);
      if after <= max then Ok(index) else Scan(sizes, planned, extra, max, start, offset + 1)
  }

  function Choose(sizes: seq<Result<u64>>, cfg: VaultConfig, cursor: nat, planned: map<nat, u64>, extra: nat)
      : (r: Result<nat>)
    ensures r.Ok? ==> r.value < |sizes|
  {
    if |sizes| == 0 then Err(NoWritableBlob)
    else if !cfg.splitFilesAcrossBlobs && extra > cfg.maxBlobSize then Err(FileExceedsBlobCapacity)
    else Scan(sizes, planned, extra, cfg.maxBlobSize, Start(cfg, cursor, |sizes|), 0)
  }

  // Planning a file

  function Place(sizes: seq<Result<u64>>, cfg: VaultConfig, f: FileId, s: Planning,
                 piece: seq<byte>): Result<Planning> {
    var bytes :- EstimatedChunkSize(|piece|);
    var k :- Choose(sizes, cfg, s.cursor, s.planned, bytes);
    var next :- CheckedAdd(s.next, 1);
    Ok(Planning((k + 1) % |sizes|, s.planned[k := WrappingAdd(PlannedFor(s.planned, k), bytes)],
                s.plan + [Assigned(k, NewChunk(f, s.next, piece))], next))
  }

  function PlaceAll(sizes: seq<Result<u64>>, cfg: VaultConfig, f: FileId, cursor: nat, pieces: seq<seq<byte>>)
      : Result<Planning>
  {
    if pieces == [] then Ok(Planning(cursor, map[], [], 0))
    else
      var s :- PlaceAll(sizes, cfg, f, cursor, pieces[..|pieces| - 1]);
      Place(sizes, cfg, f, s, pieces[|pieces| - 1])
  }

  /** The largest key below `n`. */
  function LastKey<V>(m: map<nat, V>, n: nat): (r: Option<nat>)
    ensures r.None? ==> forall k :: k in m ==> k >= n
    ensures r.Some? ==> r.value in m && r.value < n && forall k :: k in m && k < n ==> k <= r.value
  {
    if n == 0 then None
    else if n - 1 in m then Some(n - 1)
    else LastKey(m, n - 1)
  }

  /** Every planned blob stays within the bound, checked in order of position. */
  function FinalCheck(sizes: seq<Result<u64>>, planned: map<nat, u64>, max: nat, k: nat): Result<()>
    requires k <= |sizes|
    decreases |sizes| - k
  {
    if k == |sizes| then Ok(())
    else if k !in planned then FinalCheck(sizes, planned, max, k + 1)
    else
      var after :- EstimatedAfter(sizes[k], planned[k], 0);
      if after > max then Err(NoWritableBlob) else FinalCheck(sizes, planned, max, k + 1)
  }

  /** Charges the completion entry to the last planned blob and checks the bound. */
  function Finalize(sizes: seq<Result<u64>>, cfg: VaultConfig, planned: map<nat, u64>): Result<()> {
    match LastKey(planned, |sizes|)
    case None => Ok(())
    case Some(k) =>
      FinalCheck(sizes, planned[k := WrappingAdd(planned[k], FILE_COMPLETE_ENTRY_WIRE_LEN)], cfg.maxBlobSize, 0)
  }

  function AssignAll(k: nat, f: FileId, pieces: seq<seq<byte>>): Result<seq<Assigned>> {
    if pieces == [] then Ok([])
    else
      var before :- AssignAll(k, f, pieces[..|pieces| - 1]);
      var next :- CheckedAdd(|pieces| - 1, 1);
      Ok(before + [Assigned(k, NewChunk(f, next - 1, pieces[|pieces| - 1]))])
  }

  function PlanWhole(sizes: seq<Result<u64>>, cfg: VaultConfig, cursor: nat, f: FileId, contents: seq<byte>)
      : Result<seq<Assigned>>
    requires cfg.maxChunkSize > 0
  {
    var size :- EstimatedWriteSize(|contents|, Max(1, CeilDiv(|contents|, cfg.maxChunkSize)));
    var k :- Choose(sizes, cfg, cursor, NOTHING_PLANNED, size);
    AssignAll(k, f, FilePieces(contents, cfg.maxChunkSize))
  }

  function PlanSplit(sizes: seq<Result<u64>>, cfg: VaultConfig, cursor: nat, f: FileId, contents: seq<byte>)
      : Result<seq<Assigned>>
  {
    var size :- EffectiveChunkSize(cfg);
    var s :- PlaceAll(sizes, cfg, f, cursor, FilePieces(contents, size));
    var _ :- Finalize(sizes, cfg, s.planned);
    Ok(s.plan)
  }

  function PlanFile(sizes: seq<Result<u64>>, cfg: VaultConfig, cursor: nat, f: FileId, contents: seq<byte>)
      : Result<seq<Assigned>>
    requires cfg.maxChunkSize > 0
  {
    if cfg.splitFilesAcrossBlobs then PlanSplit(sizes, cfg, cursor, f, contents)
    else PlanWhole(sizes, cfg, cursor, f, contents)
  }

  // The cursor

  /** Where the cursor stands after a choice. */
  function ChoiceCursor(sizes: seq<Result<u64>>, cfg: VaultConfig, cursor: nat, planned: map<nat, u64>, extra: nat): nat {
    match Choose(sizes, cfg, cursor, planned, extra)
    case Ok(k) => (k + 1) % |sizes|
    case Err(_) => cursor
  }

  /** Where the cursor stands after one more piece, placed or not. */
  function PieceCursor(sizes: seq<Result<u64>>, cfg: VaultConfig, s: Planning, piece: seq<byte>): nat {
    var bytes := EstimatedChunkSize(|piece|);
    if bytes.Ok? then ChoiceCursor(sizes, cfg, s.cursor, s.planned, bytes.value) else s.cursor
  }

  /** Where the cursor stands after pieces have been placed, or as many as could be. */
  function PlaceCursor(sizes: seq<Result<u64>>, cfg: VaultConfig, f: FileId, cursor: nat, pieces: seq<seq<byte>>): nat {
    if pieces == [] then cursor
    else
      match PlaceAll(sizes, cfg, f, cursor, pieces[..|pieces| - 1])
      case Err(_) => PlaceCursor(sizes, cfg, f, cursor, pieces[..|pieces| - 1])
      case Ok(s) => PieceCursor(sizes, cfg, s, pieces[|pieces| - 1])
  }

  /** Where the cursor stands after a file has been planned, or refused. */
  function CursorAfter(sizes: seq<Result<u64>>, cfg: VaultConfig, cursor: nat, f: FileId, contents: seq<byte>): nat
    requires cfg.maxChunkSize > 0
  {
    if cfg.splitFilesAcrossBlobs then
      var size := EffectiveChunkSize(cfg);
      if size.Ok? then PlaceCursor(sizes, cfg, f, cursor, FilePieces(contents, size.value)) else cursor
    else
      var size := EstimatedWriteSize(|contents|, Max(1, CeilDiv(|contents|, cfg.maxChunkSize)));
      if size.Ok? then ChoiceCursor(sizes, cfg, cursor, NOTHING_PLANNED, size.value) else cursor
  }

  // What a choice means

  ghost predicate HasRoom(sizes: seq<Result<u64>>, planned: map<nat, u64>, extra: nat, max: nat, k: nat)
    requires k < |sizes|
  {
    var after := EstimatedAfter(sizes[k], PlannedFor(planned, k), extra);
    after.Ok? && after.value <= max
  }

  ghost predicate IsFull(sizes: seq<Result<u64>>, planned: map<nat, u64>, extra: nat, max: nat, k: nat)
    requires k < |sizes|
  {
    var after := EstimatedAfter(sizes[k], PlannedFor(planned, k), extra);
    after.Ok? && after.value > max
  }

  /** Going round from `start` meets every position once. */
  lemma AroundMeets(start: nat, n: nat, k: nat) returns (offset: nat)
    requires start < n && k < n
    ensures offset < n && Around(start, offset, n) == k
  {
    offset := if start <= k then k - start else k + n - start;
  }

  /** A scan passes over full blobs, in cyclic order, until one has room or has an estimate that does
      not fit 64 bits, and fails with no writable blob only past the last one. */
  lemma {:induction false} ScanFindsFirst(
      sizes: seq<Result<u64>>, planned: map<nat, u64>, extra: nat, max: nat, start: nat, offset: nat) returns (o: nat)
    requires offset <= |sizes| && |sizes| > 0
    ensures offset <= o <= |sizes|
    ensures forall p :: offset <= p < o ==> IsFull(sizes, planned, extra, max, Around(start, p, |sizes|))
    ensures o == |sizes| ==> Scan(sizes, planned, extra, max, start, offset) == Err(NoWritableBlob)
    ensures o < |sizes| ==>
      var k := Around(start, o, |sizes|);
      var after := EstimatedAfter(sizes[k], PlannedFor(planned, k), extra);
      && Scan(sizes, planned, extra, max, start, offset) == (if after.Ok? then Ok(k) else Err(after.error))
      && (after.Ok? ==> HasRoom(sizes, planned, extra, max, k))
    decreases |sizes| - offset
  {
    o := offset;
    if offset < |sizes| {
      var k := Around(start, offset, |sizes|);
      hide EstimatedAfter, Around;
      if IsFull(sizes, planned, extra, max, k) {
        o := ScanFindsFirst(sizes, planned, extra, max, start, offset + 1);
      }
    }
  }

  lemma AfterError(size: Result<u64>, planned: u64, extra: nat)
    requires size.Ok?
    ensures EstimatedAfter(size, planned, extra).Err? ==> EstimatedAfter(size, planned, extra).error == IntegerOverflow
  {
  }

  /** There is no writable blob exactly when every blob is full. */
  lemma ScanFails(sizes: seq<Result<u64>>, planned: map<nat, u64>, extra: nat, max: nat, start: nat)
    requires start < |sizes| && forall k :: 0 <= k < |sizes| ==> sizes[k].Ok?
    ensures Scan(sizes, planned, extra, max, start, 0) == Err(NoWritableBlob)
       <==> forall k :: 0 <= k < |sizes| ==> IsFull(sizes, planned, extra, max, k)
  {
    var n := |sizes|;
    var o := ScanFindsFirst(sizes, planned, extra, max, start, 0);
    hide Scan, Around;
    if o < n {
      var k := Around(start, o, n);
      AfterError(sizes[k], PlannedFor(planned, k), extra);
      assert !IsFull(sizes, planned, extra, max, k);
    } else {
      forall k | 0 <= k < n ensures IsFull(sizes, planned, extra, max, k) {
        var p := AroundMeets(start, n, k);
      }
    }
  }

  /** What having room and being full say of the bytes. */
  lemma RoomMeans(sizes: seq<Result<u64>>, planned: map<nat, u64>, extra: nat, max: u64, k: nat)
    requires k < |sizes|
    ensures HasRoom(sizes, planned, extra, max, k) <==>
      sizes[k].Ok? && sizes[k].value + PlannedFor(planned, k) + extra <= max
    ensures IsFull(sizes, planned, extra, max, k) <==>
      sizes[k].Ok? && max < sizes[k].value + PlannedFor(planned, k) + extra < U64_LIMIT
  {
  }

  /** Where a choice starts and how it goes on: from the first blob with first fit, otherwise from the
      cursor, whole files included; round from there to the first blob that is not full, and to no blob at
      all only if there is none.  A whole file larger than the bound is refused before. */
  lemma ChoiceGoesRound(sizes: seq<Result<u64>>, cfg: VaultConfig, cursor: nat, planned: map<nat, u64>, extra: nat)
      returns (o: nat)
    requires sizes != []
    ensures var n := |sizes|;
      var start := if cfg.splitFilesAcrossBlobs && !cfg.stripeChunksAcrossBlobs then 0 else cursor % n;
      var r := Choose(sizes, cfg, cursor, planned, extra);
      if !cfg.splitFilesAcrossBlobs && extra > cfg.maxBlobSize then r == Err(FileExceedsBlobCapacity)
      else
        && o <= n && (o == n ==> r == Err(NoWritableBlob))
        && (forall p :: 0 <= p < o ==> IsFull(sizes, planned, extra, cfg.maxBlobSize, Around(start, p, n)))
        && (o < n ==>
              var k := Around(start, o, n);
              && !IsFull(sizes, planned, extra, cfg.maxBlobSize, k)
              && (HasRoom(sizes, planned, extra, cfg.maxBlobSize, k) ==> r == Ok(k))
              && (!HasRoom(sizes, planned, extra, cfg.maxBlobSize, k) && sizes[k].Ok? ==> r == Err(IntegerOverflow)))
  {
    o := 0;
    if cfg.splitFilesAcrossBlobs || extra <= cfg.maxBlobSize {
      o := ScanFindsFirst(sizes, planned, extra, cfg.maxBlobSize, Start(cfg, cursor, |sizes|), 0);
      hide Scan, Around;
    }
  }

  /** A chunk is charged its frame, its entry and a completion: 170 bytes besides its text. */
  ghost predicate ChunkSizeAllowed(cfg: VaultConfig, size: nat) {
    size <= cfg.maxChunkSize && size + 170 <= cfg.maxBlobSize
  }

  /** The chunk size of split mode is the largest that respects both bounds, and there must be one. */
  lemma LargestChunkSize(cfg: VaultConfig)
    ensures match EffectiveChunkSize(cfg)
            case Ok(size) =>
              && 0 < size && ChunkSizeAllowed(cfg, size)
              && forall s: nat :: ChunkSizeAllowed(cfg, s) ==> s <= size
            case Err(e) => e == InvalidConfig && forall s: nat :: ChunkSizeAllowed(cfg, s) ==> s == 0
  {
  }
}
