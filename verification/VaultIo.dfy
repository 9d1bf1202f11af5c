/** Programs over a vault: creating one, and storing files with a new blob whenever none is writable. */
module VaultIo {
  import opened Basics
  import opened IndexCodec
  import opened Crypto
  import opened Disk
  import opened Ledger
  import opened Transaction
  import opened Handles
  import opened Blobs
  import opened Cache
  import opened Planner
  import opened Placement
  import opened Estimates
  import opened Assembly
  import opened Filing
  import opened Striping
  import opened Growing
  import opened RoundRobin
  import opened VaultState
  import opened Vaults
  import opened Success
  import opened RoundTrips

  /** What creating a blob draws at random: its id, the keys derived from it, and fill bytes. */
  datatype BlobSeed = BlobSeed(id: BlobId, keys: Keys, ent: Entropy)

  /** A blob can be made: its gaps fit a file, and the sum of its paddings a number. */
  predicate Creatable(blobConfig: BlobConfig) {
    && blobConfig.relocationLeadingPadding + blobConfig.relocationTrailingPadding < U64_LIMIT
    && FRONT_MATTER_LEN + blobConfig.initialLeadingGap + blobConfig.initialTrailingGap < U64_LIMIT
  }

  /** Creates a vault of one empty blob. */
  method CreateVault(vaultId: VaultId, seed: BlobSeed, blobConfig: BlobConfig, config: VaultConfig,
                     hash: seq<byte> -> Hash)
      returns (r: Result<Vault>)
    ensures r.Ok? ==>
      && fresh(r.value) && fresh(FootprintOf(r.value.blobs)) && r.value.Valid()
      && r.value.config == config && r.value.vaultId == vaultId && BlobIds(r.value.blobs) == [seed.id]
    ensures r.Ok? && config.cacheIndexesOnOpen ==> r.value.Coherent() && r.value.files == map[]
    ensures r.Ok? <==> ValidateConfig(config).Ok? && Creatable(blobConfig)
    ensures r.Ok? && config.cacheIndexesOnOpen ==> forall f :: FileChunks(r.value.index, f) == []
    ensures r.Ok? && AmpleFor(config, blobConfig, 0) ==> AmpleVault(r.value)
  {
    hide Inv, SnapshotOk, Fresh, Consistent, IndexOf, Agrees, AllSettled;
    var blob :- Blob.CreateNew(vaultId, seed.id, seed.keys, blobConfig, seed.ent);
    assert LookAt([blob]) == [SeenOf(blob)];
    OneEmptyConsistent(hash, SeenOf(blob));
    ghost var first := SeenOf(blob);
    r := Vault.Open(vaultId, [blob], config, hash, EMPTY_VAULT_INDEX, map[]);
    if r.Ok? {
      EmptyVault(r.value.index, r.value.Look(), first, config);
      AmpleIs(r.value);
    }
  }

  lemma AmpleIs(vault: Vault)
    ensures AmpleVault(vault) <==> Ample(vault.config, vault.Look())
  {
    hide Ample, LookAt;
  }

  /** A vault of one empty blob lists nothing. */
  lemma EmptyVault(v: VaultIndex, seen: seq<Seen>, first: Seen, cfg: VaultConfig)
    requires |seen| == 1 && seen[0] == first.(committed := seen[0].committed) && first.history.records == []
    ensures Fresh(v, ShelvesOf(seen)) ==> forall f :: FileChunks(v, f) == []
    ensures AmpleFor(cfg, first.cfg, 0) ==> Ample(cfg, seen)
  {
  }

  lemma OneEmptyConsistent(hash: seq<byte> -> Hash, s: Seen)
    requires s.Settled() && s.history.records == []
    ensures Consistent(hash, EMPTY_VAULT_INDEX, [s], map[])
  {
    hide Seen.Settled, Consistent;
    EmptyConsistent(hash, [s]);
  }

  // Retrying

  /** The seeds from one number up to another have ids that no blob of the list has. */
  ghost predicate Unused(ids: seq<BlobId>, seeds: nat -> BlobSeed, from: nat, limit: nat) {
    forall i :: from <= i < limit ==> seeds(i).id !in ids
  }

  ghost predicate DistinctSeeds(seeds: nat -> BlobSeed, limit: nat) {
    forall i, j :: 0 <= i < j < limit ==> seeds(i).id != seeds(j).id
  }

  function SeedIds(seeds: nat -> BlobSeed, n: nat): (ids: seq<BlobId>)
    ensures |ids| == n
  {
    if n == 0 then [] else SeedIds(seeds, n - 1) + [seeds(n - 1).id]
  }

  lemma UnusedNext(ids: seq<BlobId>, seeds: nat -> BlobSeed, from: nat, limit: nat)
    requires Unused(ids, seeds, from, limit) && DistinctSeeds(seeds, limit) && from < limit
    ensures seeds(from).id !in ids && Unused(ids + [seeds(from).id], seeds, from + 1, limit)
    ensures SeedIds(seeds, from + 1) == SeedIds(seeds, from) + [seeds(from).id]
  {
  }

  lemma KnownIds(blobs: seq<Blob>, seen: seq<Seen>, b: BlobId)
    requires |seen| == |blobs| && forall i :: 0 <= i < |blobs| ==> seen[i].id == blobs[i].blobId
    ensures Known(ShelvesOf(seen), b) <==> b in BlobIds(blobs)
  {
    if b in BlobIds(blobs) {
      var i :| 0 <= i < |blobs| && BlobIds(blobs)[i] == b;
      assert ShelvesOf(seen)[i].id == b;
    }
    if Known(ShelvesOf(seen), b) {
      var i :| 0 <= i < |seen| && ShelvesOf(seen)[i].id == b;
      assert BlobIds(blobs)[i] == b;
    }
  }

  /** The sizes once an empty blob is attached. */
  lemma SizesAttached(hash: seq<byte> -> Hash, v: VaultIndex, seen: seq<Seen>, files: map<FileId, StoredFile>,
                      blobs: seq<Blob>, blob: Blob)
    requires Consistent(hash, v, seen, files) && |blobs| == |seen|
    requires forall k :: 0 <= k < |blobs| ==> seen[k].id == blobs[k].blobId
    requires !Known(ShelvesOf(seen), blob.blobId)
    ensures AllSized(SizesOf(v, blobs)) && SizesOf(v, blobs + [blob]) == SizesOf(v, blobs) + [Ok(0)]
  {
    EverySized(hash, v, seen, files, blobs);
    NotListed(v, ShelvesOf(seen), blob.blobId);
    hide Fresh, Backed, AllSettled, EstimatedSize, Known, AllSized, Holds;
  }

  lemma EverySized(hash: seq<byte> -> Hash, v: VaultIndex, seen: seq<Seen>, files: map<FileId, StoredFile>,
                   blobs: seq<Blob>)
    requires Consistent(hash, v, seen, files) && |blobs| == |seen|
    requires forall k :: 0 <= k < |blobs| ==> seen[k].id == blobs[k].blobId
    ensures AllSized(SizesOf(v, blobs))
  {
    hide Fresh, Backed, AllSettled, EstimatedSize, Holds, SizeOf;
    SizesExact(v, seen);
    forall k | 0 <= k < |blobs| ensures SizesOf(v, blobs)[k].Ok? {
      assert SizesOf(v, blobs)[k] == EstimatedSize(v, seen[k].id);
    }
  }

  lemma NotListed(v: VaultIndex, shelves: seq<Shelf>, b: BlobId)
    requires Fresh(v, shelves) && !Known(shelves, b)
    ensures EstimatedSize(v, b) == Ok(0)
  {
    AppendEmpty(v, shelves, b);
    ReplaceProject(v, b, b, IndexOf([]));
  }

  /** Creates an empty blob and attaches it. */
  method AttachNewBlob(vault: Vault, blobConfig: BlobConfig, seed: BlobSeed) returns (r: Result<()>)
    requires vault.Coherent() && seed.id !in BlobIds(vault.blobs)
    modifies vault
    ensures vault.Coherent() && vault.files == old(vault.files) && vault.index == old(vault.index)
    ensures vault.nextBlobCursor == old(vault.nextBlobCursor)
    ensures r.Ok? <==> Creatable(blobConfig)
    ensures r.Err? ==> vault.blobs == old(vault.blobs) && (r.error == IntegerOverflow || r.error == Io)
    ensures old(AmpleVault(vault)) && AmpleFor(vault.config, blobConfig, 0) ==> AmpleVault(vault)
    ensures r.Ok? ==>
      && |vault.blobs| == |old(vault.blobs)| + 1 && BlobIds(vault.blobs) == BlobIds(old(vault.blobs)) + [seed.id]
      && (forall o :: o in FootprintOf(vault.blobs) ==> o in old(FootprintOf(vault.blobs)) || fresh(o))
      && vault.Sizes() == old(vault.Sizes()) + [Ok(0)]
  {
    hide Consistent, Inv, AllShort, Agrees, Separate, SizesOf, FootprintOf, LookAt, Ample, AmpleFor;
    var blob :- CreateFor(vault, blobConfig, seed);
    r := AttachEmpty(vault, blob);
  }

  method AttachEmpty(vault: Vault, blob: Blob) returns (r: Result<()>)
    requires vault.Coherent() && blob.blobId !in BlobIds(vault.blobs) && blob.vaultId == vault.vaultId
    requires |blob.file.state.bytes| < U64_LIMIT && Inv(blob.keys, blob.file.state, blob.file.history)
    requires blob.file.history.records == []
    requires forall i :: 0 <= i < |vault.blobs| ==> vault.blobs[i] != blob && vault.blobs[i].file != blob.file
    modifies vault, blob
    ensures vault.Coherent() && vault.files == old(vault.files) && vault.index == old(vault.index)
    ensures vault.nextBlobCursor == old(vault.nextBlobCursor) && r.Ok?
    ensures |vault.blobs| == |old(vault.blobs)| + 1 && BlobIds(vault.blobs) == BlobIds(old(vault.blobs)) + [blob.blobId]
    ensures FootprintOf(vault.blobs) == old(FootprintOf(vault.blobs)) + {blob, blob.file}
    ensures vault.Sizes() == old(vault.Sizes()) + [Ok(0)]
    ensures old(AmpleVault(vault)) && AmpleFor(vault.config, blob.config, 0) ==> AmpleVault(vault)
  {
    hide *;
    ghost var before, start, v, files := vault.blobs, vault.Look(), vault.index, vault.files;
    KnownIds(before, start, blob.blobId);
    CoherentMeans(vault);
    SizesAre(vault);
    AmpleIs(vault);
    r := vault.AppendBlob(blob);
    CoherentMeans(vault);
    SizesAre(vault);
    AmpleIs(vault);
    LastSeen(vault);
    AmpleMore(vault.config, start, vault.Look()[|before|]);
    SizesAttached(vault.hash, v, start, files, before, blob);
    OneMoreId(before, blob);
  }

  lemma LastSeen(vault: Vault)
    ensures forall k :: 0 <= k < |vault.blobs| ==> vault.Look()[k].history == vault.blobs[k].file.history
  {
  }

  lemma AmpleMore(cfg: VaultConfig, seen: seq<Seen>, last: Seen)
    requires last.history.records == []
    ensures Ample(cfg, seen) && AmpleFor(cfg, last.cfg, 0) ==> Ample(cfg, seen + [last])
  {
  }

  lemma OneMoreId(blobs: seq<Blob>, blob: Blob)
    ensures BlobIds(blobs + [blob]) == BlobIds(blobs) + [blob.blobId]
  {
  }

  /** Creates an empty blob beside a vault. */
  method CreateFor(vault: Vault, blobConfig: BlobConfig, seed: BlobSeed) returns (r: Result<Blob>)
    requires vault.Coherent()
    ensures vault.Coherent() && vault.Look() == old(vault.Look())
    ensures r.Ok? <==> Creatable(blobConfig)
    ensures r.Err? ==> r.error == IntegerOverflow || r.error == Io
    ensures r.Ok? ==>
      var b := r.value;
      && fresh(b) && fresh(b.file) && b.blobId == seed.id && b.vaultId == vault.vaultId && b.config == blobConfig
      && |b.file.state.bytes| < U64_LIMIT && Inv(b.keys, b.file.state, b.file.history) && b.file.history.records == []
  {
    hide Consistent, Inv, SnapshotOk, AllShort, Agrees, Separate;
    ghost var start := vault.Look();
    r := Blob.CreateNew(vault.vaultId, seed.id, seed.keys, blobConfig, seed.ent);
    assert vault.Look() == start;
  }

  /** How many new blobs may be needed before the answer is known, `blobs` being there: one in whole-file
      mode, with first fit one for every chunk, and with striping one for every chunk and one more for every
      run of as many of the blobs there were. */
  function EnoughBlobs(cfg: VaultConfig, blobs: nat, data: seq<byte>): nat {
    if !cfg.splitFilesAcrossBlobs then 1
    else if EffectiveChunkSize(cfg).Err? then 0
    else
      var chunks := |FilePieces(data, EffectiveChunkSize(cfg).value)|;
      if Striped(cfg) then Enough(chunks, blobs) else chunks
  }

  /** With enough empty blobs the file is not refused for want of a writable blob: always in whole-file
      mode and with striping, and with first fit exactly when the chunks leave the last blob room for the
      completion. */
  ghost predicate RetryEnds(sizes: seq<Result<u64>>, cfg: VaultConfig, cursor: nat, f: FileId, data: seq<byte>) {
    FirstFit(cfg) && EffectiveChunkSize(cfg).Ok? ==>
      var s := RoomyPlacement(sizes, cfg, cursor, f, data);
      !(s.Ok? && CompletionRefused(RoomySizes(sizes, cfg, data), cfg.maxBlobSize, s.value.plan))
  }

  /** With striping, the refused attempts so far have moved the cursor on. */
  ghost predicate MovedOn(cfg: VaultConfig, blobs: nat, data: seq<byte>, n: nat, cursor: nat) {
    Striped(cfg) && EffectiveChunkSize(cfg).Ok? ==>
      Pushed(|FilePieces(data, EffectiveChunkSize(cfg).value)|, blobs, n, cursor)
  }

  lemma NotMovedYet(cfg: VaultConfig, blobs: nat, data: seq<byte>, cursor: nat)
    ensures MovedOn(cfg, blobs, data, 0, cursor)
  {
  }

  /** A refusal for want of a writable blob after `n` new blobs, when the cursor stands at `c`. */
  lemma EnoughIsEnough(v: VaultIndex, sizes: seq<Result<u64>>, cfg: VaultConfig, cursor: nat, f: FileId, data: seq<byte>,
                       n: nat, c: nat)
    requires cfg.maxChunkSize > 0 && |data| < U64_LIMIT && AllSized(sizes) && sizes != []
    requires MovedOn(cfg, |sizes|, data, n, c)
    ensures RetryEnds(sizes, cfg, cursor, f, data) && n >= EnoughBlobs(cfg, |sizes|, data) ==>
      Refused(v, Grown(sizes, n), cfg, c, f, data) != Some(NoWritableBlob)
    ensures !RetryEnds(sizes, cfg, cursor, f, data) && FileChunks(v, f) == [] ==>
      Refused(v, Grown(sizes, n), cfg, c, f, data) == Some(NoWritableBlob)
    ensures Refused(v, Grown(sizes, n), cfg, c, f, data) == Some(NoWritableBlob) ==>
      MovedOn(cfg, |sizes|, data, n + 1, CursorAfter(Grown(sizes, n), cfg, c, f, data))
  {
    hide PlanWhole, PlanSplit, FileChunks, AllSized, Grown, RoomyPlacement, RoomySizes, CompletionRefused, FilePieces,
         EffectiveChunkSize, CursorAfter, Pushed, Enough;
    if !cfg.splitFilesAcrossBlobs {
      GrownSized(sizes, n);
      if n > 0 {
        WholeNeverRefused(Grown(sizes, n), cfg, c, f, data, |sizes|);
      }
    } else if EffectiveChunkSize(cfg).Err? {
      NoChunkSize(Grown(sizes, n), cfg, c, f, data);
    } else if Striped(cfg) {
      if PlanSplit(Grown(sizes, n), cfg, c, f, data) == Err(NoWritableBlob) {
        PushedOn(sizes, n, cfg, c, f, data);
      }
    } else {
      RetryEndsIff(sizes, cfg, cursor, f, data);
      if RetryEnds(sizes, cfg, cursor, f, data) && n >= EnoughBlobs(cfg, |sizes|, data) {
        RoomyPlan(sizes, cfg, cursor, f, data);
        RetryAnswer(sizes, cfg, cursor, f, data, n, c);
      }
    }
  }

  /** One round of the retry loop: an attempt, and a new blob if none was writable.  A round that is refused
      for want of a writable blob attaches one, whenever one can be made, and in an ample vault a round that
      is not refused stores the file. */
  method TryPut(vault: Vault, fileId: FileId, data: seq<byte>, blobConfig: BlobConfig, seed: BlobSeed,
                ent: nat -> Entropy) returns (r: Option<Result<()>>)
    requires vault.Coherent() && |data| < U64_LIMIT && seed.id !in BlobIds(vault.blobs)
    modifies vault, FootprintOf(vault.blobs)
    ensures vault.Coherent() && Keeps(old(vault.files), vault.files)
    ensures OthersListed(old(vault.index), vault.index, fileId)
    ensures r.Some? ==> r.value != Err(NoWritableBlob) && vault.blobs == old(vault.blobs)
    ensures r.Some? && r.value.Ok? ==> fileId in vault.files && vault.files[fileId].Contents() == data
    ensures r.None? <==> old(RefusedNow(vault, fileId, data)) == Some(NoWritableBlob) && Creatable(blobConfig)
    ensures r.Some? ==> RoundAnswers(old(RefusedNow(vault, fileId, data)), old(AmpleVault(vault)), r.value)
    ensures old(AmpleVault(vault)) && AmpleFor(vault.config, blobConfig, 0) ==> AmpleVault(vault)
    ensures r.None? ==>
      && |vault.blobs| == |old(vault.blobs)| + 1 && BlobIds(vault.blobs) == BlobIds(old(vault.blobs)) + [seed.id]
      && (forall o :: o in FootprintOf(vault.blobs) ==> o in old(FootprintOf(vault.blobs)) || fresh(o))
      && vault.index == old(vault.index) && vault.Sizes() == old(vault.Sizes()) + [Ok(0)]
      && vault.nextBlobCursor == old(NextCursor(vault, fileId, data))
  {
    hide *;
    ghost var sizes, files0 := vault.Sizes(), vault.files;
    var result := Store(vault, fileId, data, ent);
    if result != Err(NoWritableBlob) {
      AnswersStore(result);
      return Some(result);
    }
    KeepsItself(files0);
    var attached := AttachNewBlob(vault, blobConfig, seed);
    if attached.Err? {
      AnswersStore(attached);
      return Some(attached);
    }
    return None;
  }

  /** What a round answers: if it was refused, the refusal, or why no blob can be made; and in an ample vault
      success if it was not. */
  ghost predicate RoundAnswers(refused: Option<Error>, ample: bool, r: Result<()>) {
    match refused
    case Some(e) => r == Err(e) || (e == NoWritableBlob && (r == Err(IntegerOverflow) || r == Err(Io)))
    case None => ample ==> r.Ok?
  }

  lemma AnswersStore(r: Result<()>)
    ensures r.Err? ==> RoundAnswers(Some(r.error), true, r) && RoundAnswers(Some(r.error), false, r)
    ensures r == Err(IntegerOverflow) || r == Err(Io) ==>
      RoundAnswers(Some(NoWritableBlob), true, r) && RoundAnswers(Some(NoWritableBlob), false, r)
    ensures RoundAnswers(None, false, r) && (r.Ok? ==> RoundAnswers(None, true, r))
  {
  }

  lemma SizesAllSized(vault: Vault)
    requires vault.Coherent()
    ensures AllSized(vault.Sizes()) && vault.Sizes() != []
  {
    hide Consistent, AllSized, SizesOf, AllShort, Agrees, Separate;
    EverySized(vault.hash, vault.index, vault.Look(), vault.files, vault.blobs);
  }

  /** What `n` rounds of a retry have changed: an empty blob attached in each, with the seeds in order. */
  ghost predicate Growth(sizes0: seq<Result<u64>>, files0: map<FileId, StoredFile>, ids0: seq<BlobId>,
                         seeds: nat -> BlobSeed, n: nat, limit: nat, sizes: seq<Result<u64>>,
                         files: map<FileId, StoredFile>, ids: seq<BlobId>)
  {
    && sizes == Grown(sizes0, n) && Keeps(files0, files) && ids == ids0 + SeedIds(seeds, n)
    && Unused(ids, seeds, n, limit)
  }

  lemma GrowthStart(sizes0: seq<Result<u64>>, files0: map<FileId, StoredFile>, ids0: seq<BlobId>,
                    seeds: nat -> BlobSeed, limit: nat)
    requires Unused(ids0, seeds, 0, limit)
    ensures Growth(sizes0, files0, ids0, seeds, 0, limit, sizes0, files0, ids0)
  {
    assert ids0 + [] == ids0;
    assert Grown(sizes0, 0) == sizes0;
  }

  lemma GrowthParts(sizes0: seq<Result<u64>>, files0: map<FileId, StoredFile>, ids0: seq<BlobId>,
                    seeds: nat -> BlobSeed, n: nat, limit: nat, sizes: seq<Result<u64>>,
                    files: map<FileId, StoredFile>, ids: seq<BlobId>)
    requires Growth(sizes0, files0, ids0, seeds, n, limit, sizes, files, ids)
    ensures Keeps(files0, files) && Unused(ids, seeds, n, limit)
  {
    hide Keeps, Grown, Unused;
  }

  lemma GrowthNext(sizes0: seq<Result<u64>>, files0: map<FileId, StoredFile>, ids0: seq<BlobId>,
                   seeds: nat -> BlobSeed, n: nat, limit: nat, sizes: seq<Result<u64>>,
                   files: map<FileId, StoredFile>, ids: seq<BlobId>)
    requires Growth(sizes0, files0, ids0, seeds, n, limit, sizes, files, ids) && n < limit
    ensures seeds(n).id !in ids && sizes == Grown(sizes0, n)
    ensures Keeps(files0, files) && ids == ids0 + SeedIds(seeds, n)
  {
    hide Keeps, Grown;
  }

  lemma GrowthGoesOn(sizes0: seq<Result<u64>>, files0: map<FileId, StoredFile>, ids0: seq<BlobId>,
                     seeds: nat -> BlobSeed, n: nat, limit: nat, sizes: seq<Result<u64>>,
                     files1: map<FileId, StoredFile>, ids: seq<BlobId>, files: map<FileId, StoredFile>)
    requires Growth(sizes0, files0, ids0, seeds, n, limit, sizes, files1, ids) && DistinctSeeds(seeds, limit) && n < limit
    requires Keeps(files0, files)
    ensures Growth(sizes0, files0, ids0, seeds, n + 1, limit, sizes + [Ok(0)], files, ids + [seeds(n).id])
  {
    hide Keeps;
    UnusedNext(ids, seeds, n, limit);
    assert Grown(sizes0, n + 1) == Grown(sizes0, n) + [Ok(0)];
    assert ids0 + SeedIds(seeds, n) + [seeds(n).id] == ids0 + (SeedIds(seeds, n) + [seeds(n).id]);
  }

  /** What a retry starts from: the vault's sizes, index, configuration and cursor, the configuration of new
      blobs, the file, and whether vault and new blobs are clear of 64-bit limits. */
  datatype Retry = Retry(sizes: seq<Result<u64>>, index: VaultIndex, cfg: VaultConfig, blobConfig: BlobConfig,
                         cursor: nat, fileId: FileId, data: seq<byte>, ample: bool)
  {
    ghost predicate Sound() {
      && cfg.maxChunkSize > 0 && |data| < U64_LIMIT && AllSized(sizes) && sizes != []
      && (ample ==> AmpleFor(cfg, blobConfig, 0) && AmpleSizes(sizes, cfg.maxBlobSize))
    }

    function Enough(): nat { EnoughBlobs(cfg, |sizes|, data) }

    ghost predicate Ends() { RetryEnds(sizes, cfg, cursor, fileId, data) }

    ghost predicate New() { FileChunks(index, fileId) == [] }

    /** Nothing stands in the way but room. */
    ghost predicate Able()
      requires cfg.maxChunkSize > 0
    {
      ample && Creatable(blobConfig) && New() && Allowed(cfg, data)
    }

    /** Why the attempt after `n` new blobs is refused, the cursor being at `c`. */
    ghost function RefusedAt(n: nat, c: nat): Option<Error>
      requires cfg.maxChunkSize > 0
    {
      Refused(index, Grown(sizes, n), cfg, c, fileId, data)
    }

    ghost function CursorPast(n: nat, c: nat): nat
      requires cfg.maxChunkSize > 0
    {
      CursorAfter(Grown(sizes, n), cfg, c, fileId, data)
    }
  }

  lemma AmpleGrown(sizes: seq<Result<u64>>, max: nat, n: nat)
    requires AmpleSizes(sizes, max) && sizes != []
    ensures AmpleSizes(Grown(sizes, n), max) && Grown(sizes, n) != []
  {
    assert sizes[0].Ok?;
  }

  /** What the mode says of a round after `n` new blobs that ended with `r`. */
  ghost predicate Decided(t: Retry, n: nat, r: Option<Result<()>>)
    requires t.cfg.maxChunkSize > 0
  {
    && (r.None? ==> Creatable(t.blobConfig))
    && if t.Ends() then (n >= t.Enough() ==> r.Some?) && (t.Able() && r.Some? ==> r.value.Ok?)
       else t.New() ==> if Creatable(t.blobConfig) then r.None? else r.Some? && r.value.Err?
  }

  lemma RoundDecides(t: Retry, n: nat, c: nat, r: Option<Result<()>>)
    requires t.Sound() && MovedOn(t.cfg, |t.sizes|, t.data, n, c)
    requires r.None? <==> t.RefusedAt(n, c) == Some(NoWritableBlob) && Creatable(t.blobConfig)
    requires r.Some? ==> exists ample :: (t.ample ==> ample) && RoundAnswers(t.RefusedAt(n, c), ample, r.value)
    ensures Decided(t, n, r)
    ensures r.None? ==> MovedOn(t.cfg, |t.sizes|, t.data, n + 1, t.CursorPast(n, c))
  {
    hide Refused, RetryEnds, EnoughBlobs, FileChunks, Grown, AllSized, MovedOn, CursorAfter, AmpleFor, AmpleSizes, Allowed,
         Creatable;
    EnoughIsEnough(t.index, t.sizes, t.cfg, t.cursor, t.fileId, t.data, n, c);
    if t.Able() {
      AmpleGrown(t.sizes, t.cfg.maxBlobSize, n);
      RefusedOnlyForRoom(t.index, Grown(t.sizes, n), t.cfg, c, t.fileId, t.data);
    }
  }

  /** How a retry ends.  When enough blobs help, no more are attached and the loop ends with an answer, which
      is success if nothing but room stood in the way; when they do not, it never ends, unless no blob can be
      made. */
  ghost predicate RetryOutcome(t: Retry, attempts: nat, r: Option<Result<()>>, appended: nat)
    requires t.cfg.maxChunkSize > 0
  {
    && (appended > 0 ==> Creatable(t.blobConfig))
    && if t.Ends() then
         && appended <= t.Enough() && (attempts > t.Enough() ==> r.Some?)
         && (t.Able() && r.Some? ==> r.value.Ok?)
       else t.New() ==> if Creatable(t.blobConfig) then r.None? else attempts > 0 ==> r.Some? && r.value.Err?
  }

  lemma OutcomeMeans(t: Retry, attempts: nat, r: Option<Result<()>>, appended: nat)
    requires t.cfg.maxChunkSize > 0 && RetryOutcome(t, attempts, r, appended)
    ensures !t.cfg.splitFilesAcrossBlobs && attempts >= 2 ==> r.Some? && appended <= 1
    ensures t.Able() && t.Ends() && attempts > t.Enough() ==> r.Some? && r.value.Ok?
    ensures !FirstFit(t.cfg) ==> t.Ends()
  {
    hide FileChunks, Allowed, Creatable;
  }

  lemma OutcomeStart(t: Retry)
    requires t.cfg.maxChunkSize > 0
    ensures RetryOutcome(t, 0, None, 0)
  {
    hide RetryEnds, FileChunks, EnoughBlobs, Allowed, Creatable;
  }

  lemma OutcomeNext(t: Retry, attempts: nat, r: Option<Result<()>>, n: nat)
    requires t.cfg.maxChunkSize > 0 && n < attempts
    requires RetryOutcome(t, n, None, n) && Decided(t, n, r)
    ensures r.Some? ==> RetryOutcome(t, attempts, r, n)
    ensures r.None? ==> RetryOutcome(t, n + 1, None, n + 1)
  {
    hide RetryEnds, FileChunks, EnoughBlobs, Allowed, Creatable;
  }

  /** What holds of a retry after `n` rounds without an answer. */
  ghost predicate Retrying(vault: Vault, t: Retry, seeds: nat -> BlobSeed, n: nat, limit: nat,
                           files0: map<FileId, StoredFile>, ids0: seq<BlobId>)
    reads vault`blobs, vault`index, vault`files, vault`nextBlobCursor, FootprintOf(vault.blobs)
  {
    && t.Sound() && vault.config == t.cfg && vault.index == t.index && DistinctSeeds(seeds, limit)
    && MovedOn(t.cfg, |t.sizes|, t.data, n, vault.nextBlobCursor)
    && Growth(t.sizes, files0, ids0, seeds, n, limit, vault.Sizes(), vault.files, BlobIds(vault.blobs))
    && RetryOutcome(t, n, None, n) && (t.ample ==> AmpleVault(vault))
  }

  lemma RetryNow(vault: Vault, t: Retry, seeds: nat -> BlobSeed, n: nat, limit: nat, files0: map<FileId, StoredFile>,
                 ids0: seq<BlobId>)
    requires Retrying(vault, t, seeds, n, limit, files0, ids0)
    ensures t.Sound() && t.cfg.maxChunkSize > 0 && |t.data| < U64_LIMIT && vault.config == t.cfg && vault.index == t.index
    ensures RefusedNow(vault, t.fileId, t.data) == t.RefusedAt(n, vault.nextBlobCursor)
    ensures NextCursor(vault, t.fileId, t.data) == t.CursorPast(n, vault.nextBlobCursor)
    ensures MovedOn(t.cfg, |t.sizes|, t.data, n, vault.nextBlobCursor) && RetryOutcome(t, n, None, n)
    ensures Growth(t.sizes, files0, ids0, seeds, n, limit, vault.Sizes(), vault.files, BlobIds(vault.blobs))
    ensures DistinctSeeds(seeds, limit) && Keeps(files0, vault.files) && Unused(BlobIds(vault.blobs), seeds, n, limit)
    ensures n < limit ==> seeds(n).id !in BlobIds(vault.blobs)
    ensures t.ample ==> AmpleVault(vault) && AmpleFor(t.cfg, t.blobConfig, 0)
  {
    GrowthParts(t.sizes, files0, ids0, seeds, n, limit, vault.Sizes(), vault.files, BlobIds(vault.blobs));
    PlannerSees(vault, t.fileId, t.data);
    hide AllSized, AmpleFor, AmpleSizes, Refused, CursorAfter, MovedOn, RetryOutcome, DistinctSeeds, AmpleVault, BlobIds,
         Grown;
  }

  lemma RetryGoesOn(vault: Vault, t: Retry, seeds: nat -> BlobSeed, n: nat, limit: nat, files0: map<FileId, StoredFile>,
                    ids0: seq<BlobId>)
    requires t.Sound() && vault.config == t.cfg && vault.index == t.index && DistinctSeeds(seeds, limit)
    requires MovedOn(t.cfg, |t.sizes|, t.data, n, vault.nextBlobCursor)
    requires Growth(t.sizes, files0, ids0, seeds, n, limit, vault.Sizes(), vault.files, BlobIds(vault.blobs))
    requires RetryOutcome(t, n, None, n) && (t.ample ==> AmpleVault(vault))
    ensures Retrying(vault, t, seeds, n, limit, files0, ids0)
  {
    hide Retry.Sound, MovedOn, RetryOutcome, DistinctSeeds, AmpleVault, BlobIds, Growth, Vault.Sizes;
  }

  /** One round of the retry loop, `n` blobs having been attached. */
  method RetryRound(vault: Vault, fileId: FileId, data: seq<byte>, blobConfig: BlobConfig, seeds: nat -> BlobSeed, n: nat,
                    ent: nat -> Entropy, ghost attempts: nat, ghost limit: nat, ghost t: Retry,
                    ghost files0: map<FileId, StoredFile>, ghost ids0: seq<BlobId>) returns (r: Option<Result<()>>)
    requires vault.Coherent() && n < attempts <= limit && Retrying(vault, t, seeds, n, limit, files0, ids0)
    requires t.fileId == fileId && t.data == data && t.blobConfig == blobConfig
    modifies vault, FootprintOf(vault.blobs)
    ensures vault.Coherent() && OthersListed(t.index, vault.index, fileId) && Keeps(files0, vault.files)
    ensures t.ample ==> AmpleVault(vault)
    ensures r.Some? ==>
      && r.value != Err(NoWritableBlob) && vault.blobs == old(vault.blobs)
      && (r.value.Ok? ==> fileId in vault.files && vault.files[fileId].Contents() == data)
      && RetryOutcome(t, attempts, r, n)
    ensures r.None? <==> old(RefusedNow(vault, fileId, data)) == Some(NoWritableBlob) && Creatable(blobConfig)
    ensures r.None? ==>
      && |vault.blobs| == |old(vault.blobs)| + 1
      && (forall o :: o in FootprintOf(vault.blobs) ==> o in old(FootprintOf(vault.blobs)) || fresh(o))
      && Retrying(vault, t, seeds, n + 1, limit, files0, ids0)
  {
    hide *;
    ghost var was, files1, ids, c := vault.Sizes(), vault.files, BlobIds(vault.blobs), vault.nextBlobCursor;
    RetryNow(vault, t, seeds, n, limit, files0, ids0);
    r := TryPut(vault, fileId, data, blobConfig, seeds(n), ent);
    KeepsOn(files0, files1, vault.files);
    RoundDecides(t, n, c, r);
    OutcomeNext(t, attempts, r, n);
    if r.None? {
      GrowthGoesOn(t.sizes, files0, ids0, seeds, n, limit, was, files1, ids, vault.files);
      RetryGoesOn(vault, t, seeds, n + 1, limit, files0, ids0);
    }
  }

  /** Stores a file, attaching a new blob whenever none is writable, in at most `attempts` attempts.  In
      whole-file mode two attempts, and so one new blob, are enough; with first fit one more attempt than
      the file has chunks is enough, or no number is; with striping some number always is.  When nothing but
      room stands in the way, enough attempts store the file. */
  method PutFileWithRetry(vault: Vault, fileId: FileId, data: seq<byte>, blobConfig: BlobConfig, seeds: nat -> BlobSeed,
                          ent: nat -> nat -> Entropy, attempts: nat, ghost limit: nat)
      returns (r: Option<Result<()>>, appended: nat)
    requires vault.Coherent() && |data| < U64_LIMIT && attempts <= limit
    requires DistinctSeeds(seeds, limit) && Unused(BlobIds(vault.blobs), seeds, 0, limit)
    modifies vault, FootprintOf(vault.blobs)
    ensures vault.Coherent() && Keeps(old(vault.files), vault.files)
    ensures OthersListed(old(vault.index), vault.index, fileId)
    ensures |vault.blobs| == |old(vault.blobs)| + appended && appended <= attempts
    ensures forall o :: o in FootprintOf(vault.blobs) ==> o in old(FootprintOf(vault.blobs)) || fresh(o)
    ensures Unused(BlobIds(vault.blobs), seeds, appended, limit)
    ensures r.Some? ==> r.value != Err(NoWritableBlob)
    ensures r.Some? && r.value.Ok? ==> fileId in vault.files && vault.files[fileId].Contents() == data
    ensures r.None? ==> appended == attempts
    ensures !vault.config.splitFilesAcrossBlobs && attempts >= 2 ==> r.Some? && appended <= 1
    ensures old(RefusedNow(vault, fileId, data)) == Some(NoWritableBlob) && Creatable(blobConfig) && attempts > 0 ==>
      appended > 0
    ensures RetryOutcome(old(RetryOf(vault, blobConfig, fileId, data)), attempts, r, appended)
    ensures var t := old(RetryOf(vault, blobConfig, fileId, data));
      && (t.ample ==> AmpleVault(vault))
      && (t.Able() && t.Ends() && attempts > t.Enough() ==> r.Some? && r.value.Ok?)
      && (!FirstFit(vault.config) ==> t.Ends())
  {
    hide *;
    ghost var t, files0, ids0 := RetryOf(vault, blobConfig, fileId, data), vault.files, BlobIds(vault.blobs);
    ConfigPositive(vault);
    RetryStarts(vault, seeds, limit, t);
    SameListed(vault.index, fileId);
    appended, r := 0, None;
    while appended < attempts
      invariant appended <= attempts && |vault.blobs| == |old(vault.blobs)| + appended && r.None? && vault.Coherent()
      invariant forall o :: o in FootprintOf(vault.blobs) ==> o in old(FootprintOf(vault.blobs)) || fresh(o)
      invariant Retrying(vault, t, seeds, appended, limit, files0, ids0)
      invariant appended == 0 ==> RefusedNow(vault, fileId, data) == old(RefusedNow(vault, fileId, data))
    {
      RetryNow(vault, t, seeds, appended, limit, files0, ids0);
      r := RetryRound(vault, fileId, data, blobConfig, seeds, appended, ent(appended), attempts, limit, t, files0, ids0);
      if r.Some? {
        OutcomeMeans(t, attempts, r, appended);
        return;
      }
      appended := appended + 1;
    }
    RetryNow(vault, t, seeds, appended, limit, files0, ids0);
    OutcomeMeans(t, attempts, r, appended);
  }

  lemma SameListed(v: VaultIndex, f: FileId)
    ensures OthersListed(v, v, f)
  {
  }

  ghost function RetryOf(vault: Vault, blobConfig: BlobConfig, fileId: FileId, data: seq<byte>): (t: Retry)
    reads vault`blobs, vault`index, vault`nextBlobCursor, FootprintOf(vault.blobs)
    ensures t.cfg == vault.config && t.index == vault.index && t.fileId == fileId && t.data == data
    ensures t.blobConfig == blobConfig && (t.ample <==> AmpleVault(vault) && AmpleFor(vault.config, blobConfig, 0))
  {
    Retry(vault.Sizes(), vault.index, vault.config, blobConfig, vault.nextBlobCursor, fileId, data,
          AmpleVault(vault) && AmpleFor(vault.config, blobConfig, 0))
  }

  lemma RetryStarts(vault: Vault, seeds: nat -> BlobSeed, limit: nat, t: Retry)
    requires vault.Coherent() && DistinctSeeds(seeds, limit) && Unused(BlobIds(vault.blobs), seeds, 0, limit)
    requires t == RetryOf(vault, t.blobConfig, t.fileId, t.data) && |t.data| < U64_LIMIT
    ensures Retrying(vault, t, seeds, 0, limit, vault.files, BlobIds(vault.blobs))
  {
    hide Consistent, AllShort, Agrees, Separate, SizesOf, Growth, RetryOutcome, AllSized, DistinctSeeds, MovedOn, AmpleFor,
         AmpleSizes, Ample, LookAt, BlobIds;
    ConfigPositive(vault);
    SizesAllSized(vault);
    GrowthStart(vault.Sizes(), vault.files, BlobIds(vault.blobs), seeds, limit);
    NotMovedYet(vault.config, |vault.Sizes()|, t.data, vault.nextBlobCursor);
    OutcomeStart(t);
    CoherentMeans(vault);
    PlannerSees(vault, t.fileId, t.data);
    if t.ample {
      SettledAmple(vault.hash, vault.index, vault.Look(), vault.files, vault.config, vault.Sizes());
    }
  }

  lemma SettledAmple(hash: seq<byte> -> Hash, v: VaultIndex, seen: seq<Seen>, files: map<FileId, StoredFile>,
                     cfg: VaultConfig, sizes: seq<Result<u64>>)
    requires Consistent(hash, v, seen, files) && Ample(cfg, seen) && |sizes| == |seen|
    requires forall k :: 0 <= k < |seen| ==> sizes[k] == EstimatedSize(v, seen[k].id)
    ensures AmpleSizes(sizes, cfg.maxBlobSize)
  {
    hide AllSettled, Fresh, Backed, Holds, EstimatedSize, Ample, AmpleSizes;
    AmpleEstimates(v, seen, cfg, sizes);
  }

  // A vault from scratch

  function SeedsFrom(seeds: nat -> BlobSeed, base: nat): nat -> BlobSeed {
    (n: nat) => seeds(base + n)
  }

  lemma SeedsOnwards(ids: seq<BlobId>, seeds: nat -> BlobSeed, base: nat, more: nat, limit: nat)
    requires DistinctSeeds(seeds, limit) && base <= limit
    ensures DistinctSeeds(SeedsFrom(seeds, base), limit - base)
    ensures Unused(ids, seeds, base, limit) ==> Unused(ids, SeedsFrom(seeds, base), 0, limit - base)
    ensures Unused(ids, SeedsFrom(seeds, base), more, limit - base) ==> Unused(ids, seeds, base + more, limit)
  {
    var later := SeedsFrom(seeds, base);
    if Unused(ids, later, more, limit - base) {
      forall i | base + more <= i < limit ensures seeds(i).id !in ids {
        assert later(i - base) == seeds(i);
      }
    }
  }

  lemma FirstSeed(seeds: nat -> BlobSeed, limit: nat)
    requires DistinctSeeds(seeds, limit) && limit > 0
    ensures Unused([seeds(0).id], seeds, 1, limit)
  {
  }

  /** No put ended for want of a writable blob, and the files whose puts succeeded are stored. */
  ghost predicate PutsStored(files: map<FileId, StoredFile>, items: seq<(FileId, seq<byte>)>, puts: seq<Result<()>>) {
    && |puts| <= |items|
    && forall i :: 0 <= i < |puts| ==>
         && puts[i] != Err(NoWritableBlob)
         && (puts[i].Ok? ==> items[i].0 in files && files[items[i].0].Contents() == items[i].1)
  }

  lemma PutsStoredNext(files0: map<FileId, StoredFile>, files: map<FileId, StoredFile>,
                       items: seq<(FileId, seq<byte>)>, puts: seq<Result<()>>, put: Result<()>)
    requires PutsStored(files0, items, puts) && Keeps(files0, files) && |puts| < |items|
    requires put != Err(NoWritableBlob)
    requires put.Ok? ==> items[|puts|].0 in files && files[items[|puts|].0].Contents() == items[|puts|].1
    ensures PutsStored(files, items, puts + [put])
  {
    hide StoredFile.Contents;
  }

  lemma NoneRefused(files: map<FileId, StoredFile>, items: seq<(FileId, seq<byte>)>, puts: seq<Result<()>>)
    requires PutsStored(files, items, puts)
    ensures |puts| <= |items| && forall i :: 0 <= i < |puts| ==> puts[i] != Err(NoWritableBlob)
  {
    hide StoredFile.Contents;
  }

  /** Creates a vault in whole-file mode and stores files with retry, stopping at the first that fails.
      Each put ends, attaching at most one new blob, and each file that was stored reads back in the end.
      Clear of 64-bit limits every file that fits an empty blob is stored. */
  method FillNewVault(vaultId: VaultId, seeds: nat -> BlobSeed, blobConfig: BlobConfig, config: VaultConfig,
                      hash: seq<byte> -> Hash, items: seq<(FileId, seq<byte>)>, ent: nat -> nat -> nat -> Entropy)
      returns (r: Result<Vault>, puts: seq<Result<()>>, backs: seq<Result<seq<byte>>>)
    requires !config.splitFilesAcrossBlobs && config.cacheIndexesOnOpen && DistinctSeeds(seeds, |items| + 2)
    requires forall i :: 0 <= i < |items| ==> |items[i].1| < U64_LIMIT
    ensures r.Ok? <==> ValidateConfig(config).Ok? && Creatable(blobConfig)
    ensures r.Ok? ==>
      && r.value.Coherent() && |r.value.blobs| <= 1 + |items| && |puts| == |backs| <= |items|
      && (|puts| == |items| || (puts != [] && puts[|puts| - 1].Err?))
      && forall i :: 0 <= i < |puts| ==> puts[i] != Err(NoWritableBlob) && (puts[i].Ok? ==> backs[i] == Ok(items[i].1))
    ensures r.Ok? && AmpleFor(config, blobConfig, 0) && DistinctFiles(items) && AllFitWhole(config, items) ==>
      |puts| == |items| && forall i :: 0 <= i < |items| ==> puts[i].Ok? && backs[i] == Ok(items[i].1)
  {
    hide *;
    ghost var limit := |items| + 2;
    FirstSeed(seeds, limit);
    puts, backs := [], [];
    r := CreateVault(vaultId, seeds(0), blobConfig, config, hash);
    if r.Err? {
      return;
    }
    var vault := r.value;
    AllNew(vault.index, items);
    StaysRoomy(vault, blobConfig, AmpleVault(vault));
    puts := PutEach(vault, seeds, blobConfig, items, ent, limit);
    NoneRefused(vault.files, items, puts);
    backs := ReadEach(vault, items, puts);
  }

  ghost predicate DistinctFiles(items: seq<(FileId, seq<byte>)>) {
    forall i, j :: 0 <= i < j < |items| ==> items[i].0 != items[j].0
  }

  /** An empty blob takes the file whole. */
  ghost predicate FitsWhole(cfg: VaultConfig, data: seq<byte>) {
    cfg.maxChunkSize > 0 && WholeFileBytes(cfg, data) <= cfg.maxBlobSize
  }

  ghost predicate AllFitWhole(cfg: VaultConfig, items: seq<(FileId, seq<byte>)>) {
    forall i :: 0 <= i < |items| ==> FitsWhole(cfg, items[i].1)
  }

  lemma AllNew(v: VaultIndex, items: seq<(FileId, seq<byte>)>)
    ensures DistinctFiles(items) && (forall f :: FileChunks(v, f) == []) ==> NewFiles(v, items, 0)
  {
    hide FileChunks;
  }

  /** A vault and the configuration of its new blobs are clear of 64-bit limits, and blobs can be made. */
  ghost predicate Roomy(vault: Vault, blobConfig: BlobConfig)
    reads vault`blobs, FootprintOf(vault.blobs)
  {
    AmpleVault(vault) && AmpleFor(vault.config, blobConfig, 0) && Creatable(blobConfig)
  }

  lemma RoomyIsAble(vault: Vault, blobConfig: BlobConfig, f: FileId, data: seq<byte>)
    ensures var t := RetryOf(vault, blobConfig, f, data);
      && (Roomy(vault, blobConfig) ==> t.ample)
      && (Roomy(vault, blobConfig) && FileChunks(vault.index, f) == [] ==>
            !vault.config.splitFilesAcrossBlobs && FitsWhole(vault.config, data) ==> t.Able())
      && (!vault.config.splitFilesAcrossBlobs ==> t.Ends() && t.Enough() == 1)
  {
    hide FileChunks, AmpleFor, Ample, WholeFileBytes, FilePieces, SizesOf, LookAt;
  }

  lemma StaysRoomy(vault: Vault, blobConfig: BlobConfig, ample: bool)
    requires ample ==> AmpleVault(vault)
    ensures ample && AmpleFor(vault.config, blobConfig, 0) && Creatable(blobConfig) ==> Roomy(vault, blobConfig)
    ensures Roomy(vault, blobConfig) ==>
      AmpleVault(vault) && AmpleFor(vault.config, blobConfig, 0) && Creatable(blobConfig)
  {
    hide AmpleFor, Ample;
  }

  /** Stores one file with retry in whole-file mode, the blobs so far having used the first seeds. */
  method PutNext(vault: Vault, fileId: FileId, data: seq<byte>, blobConfig: BlobConfig, seeds: nat -> BlobSeed,
                 ent: nat -> nat -> Entropy, ghost limit: nat) returns (put: Result<()>)
    requires vault.Coherent() && !vault.config.splitFilesAcrossBlobs && |data| < U64_LIMIT
    requires DistinctSeeds(seeds, limit) && |vault.blobs| + 2 <= limit
    requires Unused(BlobIds(vault.blobs), seeds, |vault.blobs|, limit)
    modifies vault, FootprintOf(vault.blobs)
    ensures vault.Coherent() && Keeps(old(vault.files), vault.files) && put != Err(NoWritableBlob)
    ensures OthersListed(old(vault.index), vault.index, fileId)
    ensures old(Roomy(vault, blobConfig)) ==> Roomy(vault, blobConfig)
    ensures old(Roomy(vault, blobConfig) && FileChunks(vault.index, fileId) == []) && FitsWhole(vault.config, data) ==>
      put.Ok?
    ensures |vault.blobs| <= |old(vault.blobs)| + 1 && Unused(BlobIds(vault.blobs), seeds, |vault.blobs|, limit)
    ensures forall o :: o in FootprintOf(vault.blobs) ==> o in old(FootprintOf(vault.blobs)) || fresh(o)
    ensures put.Ok? ==> fileId in vault.files && vault.files[fileId].Contents() == data
  {
    hide *;
    var base := |vault.blobs|;
    ghost var ample := AmpleVault(vault);
    RoomyIsAble(vault, blobConfig, fileId, data);
    StaysRoomy(vault, blobConfig, ample);
    SeedsOnwards(BlobIds(vault.blobs), seeds, base, 0, limit);
    var r, appended := PutFileWithRetry(vault, fileId, data, blobConfig, SeedsFrom(seeds, base), ent, 2, limit - base);
    SeedsOnwards(BlobIds(vault.blobs), seeds, base, appended, limit);
    StaysRoomy(vault, blobConfig, ample && AmpleFor(vault.config, blobConfig, 0));
    return r.value;
  }

  /** Stores files with retry in whole-file mode, stopping at the first that fails. */
  method PutEach(vault: Vault, seeds: nat -> BlobSeed, blobConfig: BlobConfig, items: seq<(FileId, seq<byte>)>,
                 ent: nat -> nat -> nat -> Entropy, ghost limit: nat) returns (puts: seq<Result<()>>)
    requires vault.Coherent() && !vault.config.splitFilesAcrossBlobs
    requires DistinctSeeds(seeds, limit) && |vault.blobs| + |items| + 1 <= limit
    requires Unused(BlobIds(vault.blobs), seeds, |vault.blobs|, limit)
    requires forall i :: 0 <= i < |items| ==> |items[i].1| < U64_LIMIT
    modifies vault, FootprintOf(vault.blobs)
    ensures vault.Coherent() && |vault.blobs| <= |old(vault.blobs)| + |items|
    ensures PutsStored(vault.files, items, puts) && (|puts| == |items| || (puts != [] && puts[|puts| - 1].Err?))
    ensures old(Roomy(vault, blobConfig) && NewFiles(vault.index, items, 0)) && AllFitWhole(vault.config, items) ==>
      |puts| == |items| && forall i :: 0 <= i < |puts| ==> puts[i].Ok?
  {
    hide *;
    ghost var able := Roomy(vault, blobConfig) && NewFiles(vault.index, items, 0) && AllFitWhole(vault.config, items);
    NothingStored(vault.files, items);
    puts := [];
    var n := 0;
    while n < |items|
      invariant 0 <= n == |puts| <= |items| && vault.Coherent() && |vault.blobs| <= |old(vault.blobs)| + n
      invariant forall o :: o in FootprintOf(vault.blobs) ==> o in old(FootprintOf(vault.blobs)) || fresh(o)
      invariant Unused(BlobIds(vault.blobs), seeds, |vault.blobs|, limit) && PutsStored(vault.files, items, puts)
      invariant able ==> Roomy(vault, blobConfig) && NewFiles(vault.index, items, n)
      invariant able ==> forall i :: 0 <= i < |puts| ==> puts[i].Ok?
    {
      ghost var files0, v := vault.files, vault.index;
      if able {
        NextFits(vault.config, v, items, n);
      }
      var put := PutNext(vault, items[n].0, items[n].1, blobConfig, seeds, ent(n), limit);
      PutsStoredNext(files0, vault.files, items, puts, put);
      if able {
        StillNew(v, vault.index, items, n);
      }
      puts := puts + [put];
      n := n + 1;
      if put.Err? {
        return;
      }
    }
  }

  lemma NextFits(cfg: VaultConfig, v: VaultIndex, items: seq<(FileId, seq<byte>)>, n: nat)
    requires AllFitWhole(cfg, items) && NewFiles(v, items, n) && n < |items|
    ensures FitsWhole(cfg, items[n].1) && FileChunks(v, items[n].0) == []
  {
    hide FileChunks, FitsWhole;
  }

  lemma NothingStored(files: map<FileId, StoredFile>, items: seq<(FileId, seq<byte>)>)
    ensures PutsStored(files, items, [])
  {
  }

  /** Reads files back. */
  method ReadEach(vault: Vault, items: seq<(FileId, seq<byte>)>, puts: seq<Result<()>>)
      returns (backs: seq<Result<seq<byte>>>)
    requires vault.Coherent() && PutsStored(vault.files, items, puts)
    ensures vault.Coherent() && |backs| == |puts|
    ensures forall i :: 0 <= i < |puts| && puts[i].Ok? ==> backs[i] == Ok(items[i].1)
  {
    hide *;
    NoneRefused(vault.files, items, puts);
    CoherentMeans(vault);
    vault.CoherentServes();
    backs := [];
    while |backs| < |puts|
      invariant |backs| <= |puts| && vault.Intact() && vault.Look() == old(vault.Look())
      invariant forall i :: 0 <= i < |backs| && puts[i].Ok? ==> backs[i] == Ok(items[i].1)
    {
      PutStored(vault.files, items, puts, |backs|);
      var back := ReadHeld(vault, items[|backs|].0);
      backs := backs + [back];
    }
    CoherentMeans(vault);
  }

  lemma PutStored(files: map<FileId, StoredFile>, items: seq<(FileId, seq<byte>)>, puts: seq<Result<()>>, i: nat)
    requires PutsStored(files, items, puts) && i < |puts|
    ensures i < |items| && (puts[i].Ok? ==> items[i].0 in files && files[items[i].0].Contents() == items[i].1)
  {
  }
}
