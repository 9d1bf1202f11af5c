/** Storing files so that they read back: one after another, whatever is stored later, from a vault opened
    again, and by a vault that has not looked at its blobs since. */
module RoundTrips {
  import opened Basics
  import opened IndexCodec
  import opened Crypto
  import opened Ledger
  import opened Handles
  import opened Blobs
  import opened Cache
  import opened Planner
  import opened Placement
  import opened Estimates
  import opened Striping
  import opened Assembly
  import opened Filing
  import opened VaultState
  import opened Success
  import opened Vaults

  // Storing and reading back

  ghost predicate Keeps(files0: map<FileId, StoredFile>, files: map<FileId, StoredFile>) {
    forall g :: g in files0 ==> g in files && files[g] == files0[g]
  }

  /** A put keeps every file there was, whatever its outcome. */
  lemma PutKeepsFiles(start: seq<Seen>, files0: map<FileId, StoredFile>, v: VaultIndex, seen: seq<Seen>,
                      files: map<FileId, StoredFile>, f: FileId, contents: seq<byte>, plan: seq<Assigned>,
                      c: CompleteEntry, ent: nat -> Entropy, cfg: VaultConfig, r: Result<()>)
    requires PutOutcome(start, files0, v, seen, files, f, contents, plan, c, ent, cfg, r)
    ensures r.Ok? <==> WritableUpTo(start, plan, c, ent, |start|)
    ensures Bounded(start, seen, cfg.maxBlobSize)
    ensures Keeps(files0, files) && Later(start, seen)
    ensures r.Ok? ==> f in files && files[f].Contents() == contents && Grew(start, seen, plan, |start|)
    ensures r.Err? ==> r.error == IntegerOverflow || r.error == InvalidChunkSize
  {
    hide Grew, Bounded, StoredFile.Contents, Later, Writable, Touched, GroupRequest;
    var m :| 0 <= m <= |start| && Extent(start, plan, c, ent, m, r) && Grew(start, seen, plan, m);
    PutOkIff(start, plan, c, ent, m, r);
  }

  /** Why a put would be refused now. */
  ghost function RefusedNow(vault: Vault, f: FileId, data: seq<byte>): Option<Error>
    requires vault.config.maxChunkSize > 0
    reads vault`blobs, vault`index, vault`nextBlobCursor
  {
    Refused(vault.index, vault.Sizes(), vault.config, vault.nextBlobCursor, f, data)
  }

  /** Where the cursor stands once the file has been planned, or refused by the planner. */
  ghost function NextCursor(vault: Vault, f: FileId, data: seq<byte>): nat
    requires vault.config.maxChunkSize > 0
    reads vault`blobs, vault`index, vault`nextBlobCursor
  {
    CursorAfter(vault.Sizes(), vault.config, vault.nextBlobCursor, f, data)
  }

  ghost function StandingOf(vault: Vault): Standing
    reads vault`blobs, vault`index, vault`nextBlobCursor
  {
    Standing(vault.Sizes(), vault.nextBlobCursor, [])
  }

  /** The blobs' sizes, the cursor and each blob's chunks are those that storing the file leads to. */
  ghost predicate LeadsTo(cfg: VaultConfig, was: Standing, start: seq<Seen>, now: Standing, seen: seq<Seen>, f: FileId,
                          contents: seq<byte>)
    requires cfg.maxChunkSize > 0
  {
    var next := AfterPut(cfg, was, f, contents);
    && next.Ok? && now.sizes == next.value.sizes && now.cursor == next.value.cursor && |start| == |seen|
    && forall k :: 0 <= k < |start| ==>
         ChunksOn(seen[k]) == ChunksOn(start[k]) + multiset(next.value.chosen)[k]
  }

  /** The vault's configuration and blobs are clear of 64-bit limits. */
  ghost predicate AmpleVault(vault: Vault)
    reads vault`blobs, FootprintOf(vault.blobs)
  {
    Ample(vault.config, vault.Look())
  }

  /** Stores a file.  If no blob is writable, nothing is written; and in an ample vault a put fails only if
      it is refused. */
  method Store(vault: Vault, fileId: FileId, data: seq<byte>, ent: nat -> Entropy) returns (r: Result<()>)
    requires vault.Coherent() && |data| < U64_LIMIT
    modifies vault, FootprintOf(vault.blobs)
    ensures vault.Coherent() && vault.blobs == old(vault.blobs) && Keeps(old(vault.files), vault.files)
    ensures vault.config.maxChunkSize > 0
    ensures r.Ok? ==> fileId in vault.files && vault.files[fileId].Contents() == data
    ensures r.Ok? ==>
      LeadsTo(vault.config, old(StandingOf(vault)), old(vault.Look()), StandingOf(vault), vault.Look(), fileId, data)
    ensures Later(old(vault.Look()), vault.Look()) && OthersListed(old(vault.index), vault.index, fileId)
    ensures old(RefusedNow(vault, fileId, data)).Some? ==> r == Err(old(RefusedNow(vault, fileId, data)).value)
    ensures old(AmpleVault(vault)) ==> AmpleVault(vault) && (r.Ok? <==> old(RefusedNow(vault, fileId, data)).None?)
    ensures old(AmpleVault(vault) && FileChunks(vault.index, fileId) == []) && !vault.config.splitFilesAcrossBlobs ==>
      (r.Ok? <==> exists k :: 0 <= k < |old(vault.Look())| && RoomFor(old(vault.Look())[k], vault.config, data))
    ensures r == Err(NoWritableBlob) <==> old(RefusedNow(vault, fileId, data)) == Some(NoWritableBlob)
    ensures r == Err(NoWritableBlob) ==>
      && vault.Look() == old(vault.Look()) && vault.index == old(vault.index) && vault.files == old(vault.files)
      && vault.nextBlobCursor == old(NextCursor(vault, fileId, data))
  {
    hide *;
    ghost var v0, sizes, cursor := vault.index, vault.Sizes(), vault.nextBlobCursor;
    ghost var start, files0, cfg := vault.Look(), vault.files, vault.config;
    ConfigPositive(vault);
    PlannerSees(vault, fileId, data);
    CoherentMeans(vault);
    VaultApart(vault, vault.blobs);
    SameLater(start);
    r := vault.PutFile(fileId, data, ent);
    PlannerSees(vault, fileId, data);
    CoherentMeans(vault);
    ghost var refused := Refused(v0, sizes, cfg, cursor, fileId, data);
    RefusedIs(v0, sizes, cfg, cursor, fileId, data);
    if Ample(cfg, start) && FileChunks(v0, fileId) == [] && !cfg.splitFilesAcrossBlobs {
      RoomDecides(vault.hash, v0, start, files0, sizes, cfg, cursor, fileId, data);
    }
    if refused.None? {
      ghost var plan := PlanFile(sizes, cfg, cursor, fileId, data).value;
      StoreEnds(vault.hash, cfg, cursor, v0, start, files0, vault.index, vault.Look(), vault.files, sizes, vault.Sizes(),
                vault.nextBlobCursor, fileId, data, plan, CompletionOf(fileId, plan, data, vault.hash), ent, r);
    } else {
      KeepsItself(files0);
    }
  }

  lemma RoomDecides(hash: seq<byte> -> Hash, v: VaultIndex, start: seq<Seen>, files: map<FileId, StoredFile>,
                    sizes: seq<Result<u64>>, cfg: VaultConfig, cursor: nat, f: FileId, data: seq<byte>)
    requires Consistent(hash, v, start, files) && Ample(cfg, start) && start != [] && |sizes| == |start|
    requires forall k :: 0 <= k < |start| ==> sizes[k] == EstimatedSize(v, start[k].id)
    requires cfg.maxChunkSize > 0 && !cfg.splitFilesAcrossBlobs && |data| < U64_LIMIT && FileChunks(v, f) == []
    ensures Refused(v, sizes, cfg, cursor, f, data).None? <==>
      exists k :: 0 <= k < |start| && RoomFor(start[k], cfg, data)
  {
    hide AllSettled, Fresh, Backed, Holds, Ample, EstimatedSize, FileChunks, Refused, RoomFor;
    WholeRefusedIff(v, start, sizes, cfg, cursor, f, data);
  }

  /** What the planner works from. */
  lemma PlannerSees(vault: Vault, f: FileId, data: seq<byte>)
    requires vault.config.maxChunkSize > 0
    ensures RefusedNow(vault, f, data)
         == Refused(vault.index, vault.Sizes(), vault.config, vault.nextBlobCursor, f, data)
    ensures NextCursor(vault, f, data) == CursorAfter(vault.Sizes(), vault.config, vault.nextBlobCursor, f, data)
    ensures StandingOf(vault) == Standing(vault.Sizes(), vault.nextBlobCursor, [])
    ensures AmpleVault(vault) <==> Ample(vault.config, vault.Look())
    ensures forall k :: 0 <= k < |vault.blobs| ==> vault.Sizes()[k] == EstimatedSize(vault.index, vault.blobs[k].blobId)
  {
    hide Refused, CursorAfter, Ample, LookAt;
  }

  lemma RefusedIs(v: VaultIndex, sizes: seq<Result<u64>>, cfg: VaultConfig, cursor: nat, f: FileId, contents: seq<byte>)
    requires cfg.maxChunkSize > 0
    ensures Refused(v, sizes, cfg, cursor, f, contents).None? ==>
      FileChunks(v, f) == [] && PlanFile(sizes, cfg, cursor, f, contents).Ok?
    ensures Refused(v, sizes, cfg, cursor, f, contents) == Some(NoWritableBlob) ==> FileChunks(v, f) == []
  {
    hide FileChunks, PlanFile;
  }

  /** What storing a file comes to when it is not refused. */
  lemma StoreEnds(hash: seq<byte> -> Hash, cfg: VaultConfig, cursor: nat, v0: VaultIndex, start: seq<Seen>,
                  files0: map<FileId, StoredFile>, v: VaultIndex, seen: seq<Seen>, files: map<FileId, StoredFile>,
                  sizes0: seq<Result<u64>>, sizes: seq<Result<u64>>, after: nat, f: FileId, contents: seq<byte>,
                  plan: seq<Assigned>, c: CompleteEntry, ent: nat -> Entropy, r: Result<()>)
    requires cfg.maxChunkSize > 0 && |contents| < U64_LIMIT && FileChunks(v0, f) == []
    requires PlanFile(sizes0, cfg, cursor, f, contents) == Ok(plan)
    requires Consistent(hash, v0, start, files0) && Consistent(hash, v, seen, files)
    requires PutOutcome(start, files0, v, seen, files, f, contents, plan, c, ent, cfg, r)
    requires |sizes0| == |sizes| == |start| == |seen|
    requires forall k :: 0 <= k < |start| ==> seen[k].id == start[k].id && seen[k].cfg == start[k].cfg
    requires forall k :: 0 <= k < |start| ==>
               sizes0[k] == EstimatedSize(v0, start[k].id) && sizes[k] == EstimatedSize(v, start[k].id)
    requires after == CursorAfter(sizes0, cfg, cursor, f, contents)
    ensures Keeps(files0, files) && Later(start, seen)
    ensures r.Ok? ==> f in files && files[f].Contents() == contents
    ensures r.Ok? ==> LeadsTo(cfg, Standing(sizes0, cursor, []), start, Standing(sizes, after, []), seen, f, contents)
    ensures r.Err? ==> r.error == IntegerOverflow || r.error == InvalidChunkSize
    ensures Ample(cfg, start) ==> Ample(cfg, seen) && r.Ok?
  {
    hide *;
    PutKeepsFiles(start, files0, v, seen, files, f, contents, plan, c, ent, cfg, r);
    if Ample(cfg, start) {
      AmpleStays(cfg, start, seen);
      AmpleStored(hash, files0, sizes0, v0, start, cfg, cursor, f, contents, plan, c, ent, r);
    }
    if r.Ok? {
      PutLeadsTo(hash, cfg, cursor, v0, start, files0, v, seen, files, sizes0, sizes, after, f, contents, plan);
    }
  }

  lemma ConfigPositive(vault: Vault)
    requires vault.Coherent()
    ensures vault.config.maxChunkSize > 0 && vault.blobs != []
  {
    hide Consistent, AllShort, Agrees, Separate;
  }

  lemma SizesAre(vault: Vault)
    ensures vault.Sizes() == SizesOf(vault.index, vault.blobs)
  {
  }

  lemma AmpleStored(hash: seq<byte> -> Hash, files: map<FileId, StoredFile>, sizes: seq<Result<u64>>, v: VaultIndex,
                    start: seq<Seen>, cfg: VaultConfig, cursor: nat, f: FileId, contents: seq<byte>, plan: seq<Assigned>,
                    c: CompleteEntry, ent: nat -> Entropy, r: Result<()>)
    requires Consistent(hash, v, start, files) && Ample(cfg, start) && cfg.maxChunkSize > 0 && |contents| < U64_LIMIT
    requires FileChunks(v, f) == [] && PlanFile(sizes, cfg, cursor, f, contents) == Ok(plan) && |sizes| == |start|
    requires forall k :: 0 <= k < |start| ==> sizes[k] == EstimatedSize(v, start[k].id)
    requires r.Ok? <==> WritableUpTo(start, plan, c, ent, |start|)
    ensures r.Ok?
  {
    hide AllSettled, Fresh, Backed, Holds, FileChunks, PlanFile, EstimatedSize, Ample, WritableUpTo;
    AmpleWrites(sizes, v, start, cfg, cursor, f, contents, plan, c, ent);
  }

  lemma PutLeadsTo(hash: seq<byte> -> Hash, cfg: VaultConfig, cursor: nat, v0: VaultIndex, start: seq<Seen>,
                   files0: map<FileId, StoredFile>, v: VaultIndex, seen: seq<Seen>, files: map<FileId, StoredFile>,
                   sizes0: seq<Result<u64>>, sizes: seq<Result<u64>>, after: nat, f: FileId, contents: seq<byte>,
                   plan: seq<Assigned>)
    requires cfg.maxChunkSize > 0 && PlanFile(sizes0, cfg, cursor, f, contents) == Ok(plan)
    requires Consistent(hash, v0, start, files0) && Consistent(hash, v, seen, files) && Grew(start, seen, plan, |start|)
    requires |sizes0| == |sizes| == |start| && forall k :: 0 <= k < |start| ==> seen[k].id == start[k].id
    requires forall k :: 0 <= k < |start| ==>
               sizes0[k] == EstimatedSize(v0, start[k].id) && sizes[k] == EstimatedSize(v, start[k].id)
    requires after == CursorAfter(sizes0, cfg, cursor, f, contents)
    ensures LeadsTo(cfg, Standing(sizes0, cursor, []), start, Standing(sizes, after, []), seen, f, contents)
  {
    hide PlanFile, CursorAfter, EstimatedSize, SizeOf, Charged, Touched, Group, Seen.Settled, Fresh, Backed, Holds,
         ShelvesOf;
    SizesExact(v0, start);
    SizesExact(v, seen);
    forall k | 0 <= k < |start|
      ensures sizes[k] == SizesAfter(sizes0, plan)[k]
      ensures |Group(plan, k)| == multiset(Positions(plan))[k]
    {
      SettledPlaced(seen[k]);
      GroupCount(plan, k);
    }
    assert sizes == SizesAfter(sizes0, plan);
    assert [] + Positions(plan) == Positions(plan);
    hide ChunksOn;
  }

  /** Handles on the same files. */
  ghost predicate SameFiles(a: seq<Blob>, b: seq<Blob>) {
    && |a| == |b|
    && forall i :: 0 <= i < |a| ==>
         b[i].file == a[i].file && b[i].blobId == a[i].blobId && b[i].keys == a[i].keys && b[i].config == a[i].config
  }

  /** New handles on the files of some blobs, as another process opens them. */
  method OpenHandles(blobs: seq<Blob>) returns (handles: seq<Blob>)
    requires Separate(blobs) && AllShort(LookAt(blobs))
    ensures |handles| == |blobs| && Separate(handles) && fresh(HandlesOf(handles))
    ensures forall i :: 0 <= i < |blobs| ==>
      handles[i].vaultId == blobs[i].vaultId && SeenOf(handles[i]) == SeenOf(blobs[i]).(committed := None)
    ensures SameFiles(blobs, handles)
  {
    handles := [];
    var i := 0;
    while i < |blobs|
      invariant 0 <= i <= |blobs| && |handles| == i
      invariant forall j :: 0 <= j < i ==>
        && fresh(handles[j]) && handles[j].file == blobs[j].file && handles[j].vaultId == blobs[j].vaultId
        && SeenOf(handles[j]) == SeenOf(blobs[j]).(committed := None)
      invariant forall j, k :: 0 <= j < k < i ==> handles[j] != handles[k]
    {
      var b := blobs[i];
      assert |LookAt(blobs)[i].state.bytes| < U64_LIMIT;
      var handle := new Blob.OpenExisting(b.vaultId, b.blobId, b.file, b.keys, b.config);
      handles := handles + [handle];
      i := i + 1;
    }
  }

  lemma NewHandles(hash: seq<byte> -> Hash, v: VaultIndex, seen: seq<Seen>, again: seq<Seen>,
                   files: map<FileId, StoredFile>)
    requires Consistent(hash, v, seen, files) && AllShort(seen)
    requires |again| == |seen| && forall i :: 0 <= i < |seen| ==> again[i] == seen[i].(committed := None)
    ensures Consistent(hash, v, again, files) && AllShort(again)
  {
    hide Inv, Fresh, Backed, Holds;
    assert ShelvesOf(again) == ShelvesOf(seen);
    forall i | 0 <= i < |again| ensures again[i].Settled() {
      assert seen[i].Settled();
    }
  }

  /** Opens a vault on the handles of consistent blobs and has it load their indexes. */
  method OpenLoaded(vaultId: VaultId, handles: seq<Blob>, config: VaultConfig, hash: seq<byte> -> Hash,
                    ghost before: VaultIndex, ghost known: map<FileId, StoredFile>) returns (vault: Vault)
    requires Separate(handles) && AllShort(LookAt(handles)) && Consistent(hash, before, LookAt(handles), known)
    requires ValidateConfig(config).Ok? && handles != []
    requires forall i :: 0 <= i < |handles| ==> handles[i].vaultId == vaultId
    modifies HandlesOf(handles)
    ensures fresh(vault) && vault.blobs == handles && vault.Coherent() && vault.files == known && vault.config == config
    ensures vault.hash == hash
  {
    hide Consistent, AllShort, Separate, SameDisks, DistinctIds, Fresh, Agrees, AllSettled, AllSound, LookAt;
    var found := Vault.Open(vaultId, handles, config, hash, before, known);
    vault := found.value;
    if !config.cacheIndexesOnOpen {
      var refreshed := vault.RefreshIndexes(before);
    }
  }

  /** Opens the vault again, on new handles: it has the files there were. */
  method Reopen(vault: Vault) returns (reopened: Vault)
    requires vault.Coherent()
    ensures vault.Look() == old(vault.Look()) && SameDisks(vault.Look(), reopened.Look())
    ensures fresh(reopened) && reopened.Coherent() && reopened.files == vault.files && reopened.config == vault.config
    ensures fresh(HandlesOf(reopened.blobs)) && SameFiles(vault.blobs, reopened.blobs) && reopened.hash == vault.hash
  {
    ghost var seen := vault.Look();
    hide Consistent, AllShort, Separate, Agrees, SameDisks, SameFiles, HandlesOf;
    var handles := OpenHandles(vault.blobs);
    assert vault.Look() == seen;
    NewHandles(vault.hash, vault.index, seen, LookAt(handles), vault.files);
    reopened := OpenLoaded(vault.vaultId, handles, vault.config, vault.hash, vault.index, vault.files);
    assert vault.Look() == seen;
    SameFilesLook(vault.blobs, handles);
  }

  lemma CoherentMeans(vault: Vault)
    ensures vault.Coherent() <==>
      && vault.Structured() && Agrees(vault.index, vault.loaded) && AllShort(vault.Look())
      && Consistent(vault.hash, vault.index, vault.Look(), vault.files)
    ensures vault.Valid() <==> vault.Structured() && Agrees(vault.index, vault.loaded) && AllShort(vault.Look())
    ensures forall k :: 0 <= k < |vault.blobs| ==> vault.Look()[k].committed == vault.blobs[k].committed
  {
    hide Consistent, AllShort, Agrees, Separate;
  }

  lemma KeptAt(files0: map<FileId, StoredFile>, files: map<FileId, StoredFile>, f: FileId)
    requires Keeps(files0, files)
    ensures f in files0 ==> f in files && files[f] == files0[f]
  {
  }

  lemma KeepsItself(files: map<FileId, StoredFile>)
    ensures Keeps(files, files)
  {
  }

  lemma KeepsOn(a: map<FileId, StoredFile>, b: map<FileId, StoredFile>, c: map<FileId, StoredFile>)
    requires Keeps(a, b) && Keeps(b, c)
    ensures Keeps(a, c)
  {
  }

  method ReadHeld(vault: Vault, f: FileId) returns (r: Result<seq<byte>>)
    requires vault.Intact()
    ensures vault.Intact() && vault.Look() == old(vault.Look())
    ensures f in vault.files ==> r == Ok(vault.files[f].Contents())
  {
    hide Served, StoredFile.Contents, LookAt, EnsureFileComplete, LatestComplete;
    r := vault.ReadFile(f);
  }

  /** Stores files, some of which may be refused. */
  method StoreEach(vault: Vault, items: seq<(FileId, seq<byte>)>, ent: nat -> nat -> Entropy)
    requires vault.Coherent() && forall i :: 0 <= i < |items| ==> |items[i].1| < U64_LIMIT
    modifies vault, FootprintOf(vault.blobs)
    ensures vault.Coherent() && vault.blobs == old(vault.blobs) && Keeps(old(vault.files), vault.files)
  {
    hide *;
    ghost var files0 := vault.files;
    KeepsItself(files0);
    var i := 0;
    while i < |items|
      invariant 0 <= i <= |items| && vault.Coherent() && vault.blobs == old(vault.blobs) && Keeps(files0, vault.files)
    {
      ghost var files1 := vault.files;
      var put := Store(vault, items[i].0, items[i].1, ent(i + 1));
      KeepsOn(files0, files1, vault.files);
      i := i + 1;
    }
  }

  /** Round trip: a file that was stored reads back, whatever is stored after it, and reads back from
      the vault opened again. */
  method StoreAndRead(vault: Vault, fileId: FileId, contents: seq<byte>, later: seq<(FileId, seq<byte>)>,
                      ent: nat -> nat -> Entropy)
      returns (put: Result<()>, back: Result<seq<byte>>, again: Result<seq<byte>>)
    requires vault.Coherent() && |contents| < U64_LIMIT
    requires forall i :: 0 <= i < |later| ==> |later[i].1| < U64_LIMIT
    modifies vault, FootprintOf(vault.blobs)
    ensures vault.Coherent()
    ensures put.Ok? ==> back == again == Ok(contents)
    ensures old(RefusedNow(vault, fileId, contents)).Some? ==> put.Err?
    ensures old(AmpleVault(vault) && RefusedNow(vault, fileId, contents).None?) ==> put.Ok?
  {
    hide *;
    ConfigPositive(vault);
    put := Store(vault, fileId, contents, ent(0));
    ghost var files := vault.files;
    StoreEach(vault, later, ent);
    KeptAt(files, vault.files, fileId);
    CoherentMeans(vault);
    vault.CoherentServes();
    back := ReadHeld(vault, fileId);
    CoherentMeans(vault);
    again := ReadReopened(vault, fileId);
    CoherentMeans(vault);
  }

  method ReadReopened(vault: Vault, f: FileId) returns (r: Result<seq<byte>>)
    requires vault.Coherent()
    ensures vault.Look() == old(vault.Look()) && (f in vault.files ==> r == Ok(vault.files[f].Contents()))
  {
    hide Consistent, Served, AllShort, Agrees, Separate, StoredFile.Contents, SameDisks, SameFiles;
    ghost var seen := vault.Look();
    var reopened := Reopen(vault);
    reopened.CoherentServes();
    r := ReadHeld(reopened, f);
    assert vault.Look() == seen;
  }

  // Runs of puts

  lemma AfterPutChosen(cfg: VaultConfig, s: Standing, f: FileId, contents: seq<byte>)
    requires cfg.maxChunkSize > 0
    ensures var a, b := AfterPut(cfg, s.(chosen := []), f, contents), AfterPut(cfg, s, f, contents);
      if a.Ok? then b == Ok(a.value.(chosen := s.chosen + a.value.chosen)) else b == a
  {
    hide PlanFile, SizesAfter, CursorAfter;
    var plan := PlanFile(s.sizes, cfg, s.cursor, f, contents);
    if plan.Ok? {
      assert [] + Positions(plan.value) == Positions(plan.value);
    }
  }

  /** The chunks the blobs have been given since `start` are those of the standing. */
  ghost predicate Given(start: seq<Seen>, seen: seq<Seen>, chosen: seq<nat>) {
    |seen| == |start| && forall k :: 0 <= k < |start| ==> ChunksOn(seen[k]) == ChunksOn(start[k]) + multiset(chosen)[k]
  }

  ghost predicate AllStored(files: map<FileId, StoredFile>, items: seq<(FileId, seq<byte>)>) {
    forall i :: 0 <= i < |items| ==> items[i].0 in files && files[items[i].0].Contents() == items[i].1
  }

  /** Where storing files has led: to the standing of the planner's run, with the files kept and stored. */
  ghost predicate RunStands(cfg: VaultConfig, first: Standing, start: seq<Seen>, files0: map<FileId, StoredFile>,
                          items: seq<(FileId, seq<byte>)>, now: Standing, seen: seq<Seen>,
                          files: map<FileId, StoredFile>)
    requires cfg.maxChunkSize > 0
  {
    var s := AfterPuts(cfg, first, items);
    && s.Ok? && now == s.value.(chosen := []) && Given(start, seen, s.value.chosen)
    && Keeps(files0, files) && AllStored(files, items)
  }

  lemma RunStarts(cfg: VaultConfig, first: Standing, start: seq<Seen>, files0: map<FileId, StoredFile>)
    requires cfg.maxChunkSize > 0 && first.chosen == []
    ensures RunStands(cfg, first, start, files0, [], first, start, files0)
  {
  }

  lemma RunGoesOn(cfg: VaultConfig, first: Standing, start: seq<Seen>, files0: map<FileId, StoredFile>,
                    items: seq<(FileId, seq<byte>)>, was: Standing, mid: seq<Seen>, files1: map<FileId, StoredFile>,
                    item: (FileId, seq<byte>), now: Standing, seen: seq<Seen>, files: map<FileId, StoredFile>)
    requires cfg.maxChunkSize > 0 && RunStands(cfg, first, start, files0, items, was, mid, files1)
    requires LeadsTo(cfg, was, mid, now, seen, item.0, item.1) && now.chosen == []
    requires Keeps(files1, files) && item.0 in files && files[item.0].Contents() == item.1
    ensures RunStands(cfg, first, start, files0, items + [item], now, seen, files)
  {
    hide AfterPut, ChunksOn, StoredFile.Contents;
    AfterPutChosen(cfg, AfterPuts(cfg, first, items).value, item.0, item.1);
    assert (items + [item])[..|items|] == items;
  }

  /** Stores files one after the other, stopping at the first that fails.  The blobs end with the sizes
      and chunks, and the cursor at the position, that the planner's run of puts gives.  In striped split
      mode, while the blob at the cursor has room, no blob is given two chunks more than another. */
  method PutAll(vault: Vault, items: seq<(FileId, seq<byte>)>, ent: nat -> nat -> Entropy)
      returns (r: Result<()>, stored: nat)
    requires vault.Coherent() && forall i :: 0 <= i < |items| ==> |items[i].1| < U64_LIMIT
    modifies vault, FootprintOf(vault.blobs)
    ensures vault.Coherent() && vault.blobs == old(vault.blobs) && Keeps(old(vault.files), vault.files)
    ensures Later(old(vault.Look()), vault.Look())
    ensures stored <= |items| && (r.Ok? <==> stored == |items|)
    ensures Keeps(old(vault.files), vault.files) && AllStored(vault.files, items[..stored])
    ensures r.Ok? ==> RunStands(vault.config, old(StandingOf(vault)), old(vault.Look()), old(vault.files), items,
                              StandingOf(vault), vault.Look(), vault.files)
    ensures r.Ok? && Striped(vault.config) && RoomForAll(vault.config, old(StandingOf(vault)), items) ==>
      GivenEvenly(old(vault.Look()), vault.Look())
    ensures old(AmpleVault(vault) && NewFiles(vault.index, items, 0)) ==>
      (r.Ok? <==> AfterPuts(vault.config, old(StandingOf(vault)), items).Ok?)
  {
    hide *;
    ghost var cfg, first, start, files0 := vault.config, StandingOf(vault), vault.Look(), vault.files;
    ghost var able := AmpleVault(vault) && NewFiles(vault.index, items, 0);
    ConfigPositive(vault);
    StandingFresh(vault);
    RunStarts(cfg, first, start, files0);
    stored := 0;
    SameLater(start);
    assert items[..0] == [];
    while stored < |items|
      invariant 0 <= stored <= |items| && vault.Coherent() && vault.blobs == old(vault.blobs)
      invariant RunStands(cfg, first, start, files0, items[..stored], StandingOf(vault), vault.Look(), vault.files)
      invariant Later(start, vault.Look())
      invariant able ==> AmpleVault(vault) && NewFiles(vault.index, items, stored)
    {
      ghost var was, mid, files1, v := StandingOf(vault), vault.Look(), vault.files, vault.index;
      PlannerSees(vault, items[stored].0, items[stored].1);
      VaultApart(vault, vault.blobs);
      var put := Store(vault, items[stored].0, items[stored].1, ent(stored));
      StandingFresh(vault);
      LaterStill(start, mid, vault.Look());
      if put.Err? {
        RunKeeps(cfg, first, start, files0, items[..stored], was, mid, files1, vault.files);
        if able {
          RunRefused(cfg, first, start, files0, items, stored, was, mid, files1, v);
        }
        return put, stored;
      }
      if able {
        StillNew(v, vault.index, items, stored);
      }
      RunGoesOn(cfg, first, start, files0, items[..stored], was, mid, files1, items[stored],
                  StandingOf(vault), vault.Look(), vault.files);
      assert items[..stored + 1] == items[..stored] + [items[stored]];
      stored := stored + 1;
    }
    assert items[..stored] == items;
    r := Ok(());
    RunKeeps(cfg, first, start, files0, items, StandingOf(vault), vault.Look(), vault.files, vault.files);
    if Striped(cfg) && RoomForAll(cfg, first, items) {
      RunGivesEvenly(cfg, first, start, files0, items, StandingOf(vault), vault.Look(), vault.files);
    }
  }

  /** The files from the `n`-th on have no chunks listed, and each its own id. */
  ghost predicate NewFiles(v: VaultIndex, items: seq<(FileId, seq<byte>)>, n: nat) {
    && (forall i, j :: 0 <= i < j < |items| ==> items[i].0 != items[j].0)
    && forall i :: n <= i < |items| ==> FileChunks(v, items[i].0) == []
  }

  lemma StillNew(v: VaultIndex, w: VaultIndex, items: seq<(FileId, seq<byte>)>, n: nat)
    requires NewFiles(v, items, n) && n < |items| && OthersListed(v, w, items[n].0)
    ensures NewFiles(w, items, n + 1)
  {
    hide FileChunks, FileCompletes;
    forall i | n < i < |items| ensures FileChunks(w, items[i].0) == [] {
      OfNothing(FileChunks(v, items[i].0));
      OfNothing(FileChunks(w, items[i].0));
    }
  }

  /** If the planner refuses the next file, its run of puts fails. */
  lemma RunRefused(cfg: VaultConfig, first: Standing, start: seq<Seen>, files0: map<FileId, StoredFile>,
                   items: seq<(FileId, seq<byte>)>, n: nat, was: Standing, mid: seq<Seen>, files: map<FileId, StoredFile>,
                   v: VaultIndex)
    requires cfg.maxChunkSize > 0 && n < |items| && RunStands(cfg, first, start, files0, items[..n], was, mid, files)
    requires NewFiles(v, items, n) && Refused(v, was.sizes, cfg, was.cursor, items[n].0, items[n].1).Some?
    ensures AfterPuts(cfg, first, items).Err?
  {
    hide FileChunks, PlanFile, Given, StoredFile.Contents;
    var s := AfterPuts(cfg, first, items[..n]).value;
    assert AfterPut(cfg, s, items[n].0, items[n].1).Err?;
    assert items[..n + 1][..n] == items[..n];
    assert AfterPuts(cfg, first, items[..n + 1]).Err?;
    RunStaysFailed(cfg, first, items, n + 1);
  }

  lemma {:induction false} RunStaysFailed(cfg: VaultConfig, first: Standing, items: seq<(FileId, seq<byte>)>, n: nat)
    requires cfg.maxChunkSize > 0 && n <= |items| && AfterPuts(cfg, first, items[..n]).Err?
    ensures AfterPuts(cfg, first, items).Err?
    decreases |items|
  {
    hide AfterPut;
    if n == |items| {
      assert items[..n] == items;
    } else {
      assert items[..|items| - 1][..n] == items[..n];
      RunStaysFailed(cfg, first, items[..|items| - 1], n);
    }
  }

  lemma StandingFresh(vault: Vault)
    ensures StandingOf(vault).chosen == [] && |StandingOf(vault).sizes| == |vault.Look()|
  {
  }

  lemma RunKeeps(cfg: VaultConfig, first: Standing, start: seq<Seen>, files0: map<FileId, StoredFile>,
                     items: seq<(FileId, seq<byte>)>, now: Standing, seen: seq<Seen>, files1: map<FileId, StoredFile>,
                     files: map<FileId, StoredFile>)
    requires cfg.maxChunkSize > 0 && RunStands(cfg, first, start, files0, items, now, seen, files1)
    requires Keeps(files1, files) || files == files1
    ensures Keeps(files0, files) && AllStored(files, items) && AfterPuts(cfg, first, items).Ok?
  {
    hide AfterPuts, Given, StoredFile.Contents;
  }

  /** No blob has been given two chunks more than another. */
  ghost predicate GivenEvenly(start: seq<Seen>, seen: seq<Seen>) {
    && |seen| == |start|
    && forall a, b :: 0 <= a < |seen| && 0 <= b < |seen| ==>
         ChunksOn(seen[a]) - ChunksOn(start[a]) <= ChunksOn(seen[b]) - ChunksOn(start[b]) + 1
  }

  lemma RunGivesEvenly(cfg: VaultConfig, first: Standing, start: seq<Seen>, files0: map<FileId, StoredFile>,
                      items: seq<(FileId, seq<byte>)>, now: Standing, seen: seq<Seen>, files: map<FileId, StoredFile>)
    requires Striped(cfg) && cfg.maxChunkSize > 0 && first.chosen == [] && |first.sizes| == |start|
    requires RunStands(cfg, first, start, files0, items, now, seen, files) && RoomForAll(cfg, first, items)
    ensures GivenEvenly(start, seen)
  {
    hide AfterPuts, RoomForAll, ChunksOn, Keeps, AllStored;
    forall a, b | 0 <= a < |seen| && 0 <= b < |seen|
      ensures ChunksOn(seen[a]) - ChunksOn(start[a]) <= ChunksOn(seen[b]) - ChunksOn(start[b]) + 1
    {
      PutsBalance(cfg, first, items, a, b);
    }
  }

  // Reading while others write

  /** What two handles on the same files see differs only in their snapshots. */
  lemma SameFilesLook(a: seq<Blob>, b: seq<Blob>)
    requires SameFiles(a, b)
    ensures SameDisks(LookAt(b), LookAt(a)) && SameDisks(LookAt(a), LookAt(b))
  {
  }

  /** The shelves once the first `n` blobs have been looked at again. */
  function CaughtUpTo(past: seq<Shelf>, now: seq<Shelf>, n: nat): (shelves: seq<Shelf>)
    requires n <= |past| == |now|
  {
    now[..n] + past[n..]
  }

  lemma CaughtUpEnds(past: seq<Shelf>, now: seq<Shelf>)
    requires |past| == |now|
    ensures CaughtUpTo(past, now, 0) == past && CaughtUpTo(past, now, |past|) == now
  {
  }

  lemma CaughtUpNext(past: seq<Shelf>, now: seq<Shelf>, n: nat)
    requires n < |past| == |now| && Extends(past, now)
    ensures CaughtUpTo(past, now, n)[n := now[n]] == CaughtUpTo(past, now, n + 1)
    ensures Extends(CaughtUpTo(past, now, n), now) && |CaughtUpTo(past, now, n)| == |now|
  {
  }

  /** Looks again at one blob, those before it having been looked at since the others wrote. */
  method HandleNext(vault: Vault, n: nat, ghost past: seq<Shelf>)
    requires vault.Valid() && AllSound(vault.Look()) && n < |past| == |vault.blobs|
    requires Extends(past, ShelvesOf(vault.Look())) && Fresh(vault.index, CaughtUpTo(past, ShelvesOf(vault.Look()), n))
    modifies vault`index, vault`loaded
    ensures vault.Valid() && vault.Look() == old(vault.Look())
    ensures Fresh(vault.index, CaughtUpTo(past, ShelvesOf(vault.Look()), n + 1))
  {
    hide *;
    ghost var now := ShelvesOf(vault.Look());
    CaughtUpNext(past, now, n);
    var handled := vault.HandleBlobChanged(vault.blobs[n].blobId, CaughtUpTo(past, now, n));
  }

  /** Looks again at every blob after others have written: the index then lists all that is committed. */
  method HandleAllChanged(vault: Vault, ghost past: seq<Shelf>)
    requires vault.Valid() && AllSound(vault.Look())
    requires Fresh(vault.index, past) && Extends(past, ShelvesOf(vault.Look())) && |past| == |vault.blobs|
    modifies vault`index, vault`loaded
    ensures vault.Valid() && vault.Look() == old(vault.Look()) && Fresh(vault.index, ShelvesOf(vault.Look()))
  {
    hide *;
    ghost var seen, now := vault.Look(), ShelvesOf(vault.Look());
    CaughtUpEnds(past, now);
    var i := 0;
    while i < |vault.blobs|
      invariant 0 <= i <= |vault.blobs| && vault.Valid() && vault.Look() == seen
      invariant Fresh(vault.index, CaughtUpTo(past, now, i))
    {
      HandleNext(vault, i, past);
      i := i + 1;
    }
  }

  lemma StaysServed(hash: seq<byte> -> Hash, v: VaultIndex, start: seq<Seen>, files: map<FileId, StoredFile>,
                    w: VaultIndex, written: seq<Seen>, known: map<FileId, StoredFile>, seen: seq<Seen>)
    requires Consistent(hash, v, start, files) && AllShort(start)
    requires Consistent(hash, w, written, known) && AllShort(written)
    requires Later(start, seen) && SameDisks(written, seen)
    ensures Served(hash, v, seen, files) && AllShort(seen) && AllSound(seen)
    ensures Fresh(v, ShelvesOf(start)) && Extends(ShelvesOf(start), ShelvesOf(seen))
  {
    hide Fresh, Backed, Holds, Seen.Settled, Served, Later;
    ConsistentServed(hash, v, start, files);
    ConsistentServed(hash, w, written, known);
    ConsistentSound(hash, w, written, known);
    LaterShelves(start, seen);
    ServedLater(hash, v, start, seen, files);
  }

  /** Reads stored files. */
  method ReadStored(vault: Vault, items: seq<(FileId, seq<byte>)>) returns (backs: seq<Result<seq<byte>>>)
    requires vault.Intact() && AllStored(vault.files, items)
    ensures vault.Intact() && vault.Look() == old(vault.Look()) && |backs| == |items|
    ensures forall i :: 0 <= i < |items| ==> backs[i] == Ok(items[i].1)
  {
    hide *;
    backs := [];
    while |backs| < |items|
      invariant |backs| <= |items| && vault.Intact() && vault.Look() == old(vault.Look())
      invariant forall i :: 0 <= i < |backs| ==> backs[i] == Ok(items[i].1)
    {
      StoredAt(vault.files, items, |backs|);
      var back := ReadHeld(vault, items[|backs|].0);
      backs := backs + [back];
    }
  }

  lemma StoredAt(files: map<FileId, StoredFile>, items: seq<(FileId, seq<byte>)>, i: nat)
    requires AllStored(files, items) && i < |items|
    ensures items[i].0 in files && files[items[i].0].Contents() == items[i].1
  {
  }

  /** A vault that has not looked at its blobs since `start`, when another one wrote to them. */
  lemma Outdated(reader: Vault, start: seq<Seen>, writer: Vault)
    requires reader.Structured() && Agrees(reader.index, reader.loaded)
    requires Consistent(reader.hash, reader.index, start, reader.files) && AllShort(start)
    requires writer.Coherent() && SameFiles(reader.blobs, writer.blobs) && Later(start, writer.Look())
    requires writer.hash == reader.hash
    ensures reader.Intact() && reader.Valid() && AllSound(reader.Look()) && |start| == |reader.blobs|
    ensures Fresh(reader.index, ShelvesOf(start)) && Extends(ShelvesOf(start), ShelvesOf(reader.Look()))
    ensures SameDisks(writer.Look(), reader.Look()) && Later(start, reader.Look())
  {
    hide Fresh, Consistent, Served, Seen.Settled, AllShort, Agrees, Separate, Extends, LookAt, AllSound;
    SameFilesLook(reader.blobs, writer.blobs);
    var seen := reader.Look();
    LaterDisks(start, writer.Look(), seen);
    StaysServed(reader.hash, reader.index, start, reader.files, writer.index, writer.Look(), writer.files, seen);
  }

  lemma SameThenLater(start: seq<Seen>, again: seq<Seen>, now: seq<Seen>)
    requires SameDisks(start, again) && Later(again, now)
    ensures Later(start, now)
  {
  }

  lemma LaterDisks(start: seq<Seen>, written: seq<Seen>, seen: seq<Seen>)
    requires Later(start, written) && SameDisks(written, seen)
    ensures Later(start, seen)
  {
  }

  /** Once its view lists all there is, a vault holds the files of the other, `known`.  Its snapshots may be
      those of older commits. */
  lemma UpToDate(hash: seq<byte> -> Hash, v: VaultIndex, start: seq<Seen>, files: map<FileId, StoredFile>,
                 w: VaultIndex, written: seq<Seen>, known: map<FileId, StoredFile>, now: VaultIndex, seen: seq<Seen>)
    requires Consistent(hash, v, start, files) && Later(start, seen)
    requires forall k :: 0 <= k < |start| ==> seen[k].committed == start[k].committed
    requires Consistent(hash, w, written, known) && SameDisks(written, seen) && Fresh(now, ShelvesOf(seen))
    ensures Consistent(hash, now, seen, known)
  {
    hide Inv, Fresh, Backed, Holds, SnapshotOk, Continues;
    forall k | 0 <= k < |seen| ensures SnapshotOk(seen[k].history, seen[k].committed) {
      assert start[k].Settled();
      SnapshotLater(start[k].history, seen[k].history, seen[k].committed);
    }
    hide AllSettled;
    CaughtUp(hash, w, written, now, seen, known);
  }

  /** Handles on the same files share nothing else. */
  lemma SharedFootprint(a: seq<Blob>, b: seq<Blob>)
    requires SameFiles(a, b)
    ensures forall o :: o in FootprintOf(b) ==> o in HandlesOf(b) || o in FootprintOf(a)
  {
    forall o | o in FootprintOf(b) ensures o in HandlesOf(b) || o in FootprintOf(a) {
      var i :| 0 <= i < |b| && (o == b[i] || o == b[i].file);
      assert a[i].file == b[i].file;
    }
  }

  lemma VaultApart(vault: Vault, blobs: seq<Blob>)
    ensures vault !in FootprintOf(blobs)
  {
  }

  lemma HandlesApart(a: seq<Blob>, b: seq<Blob>)
    requires forall i :: 0 <= i < |a| ==> a[i] !in HandlesOf(b)
    ensures forall i :: 0 <= i < |a| ==> a[i] !in FootprintOf(b)
  {
  }

  /** What another vault stores on the same blobs, unseen by the reader. */
  method WriteElsewhere(reader: Vault, items: seq<(FileId, seq<byte>)>, ent: nat -> nat -> Entropy)
      returns (writer: Vault, put: Result<()>, stored: nat)
    requires reader.Coherent() && forall i :: 0 <= i < |items| ==> |items[i].1| < U64_LIMIT
    modifies FootprintOf(reader.blobs)
    ensures fresh(writer) && writer.Coherent() && writer.hash == reader.hash && SameFiles(reader.blobs, writer.blobs)
    ensures forall k :: 0 <= k < |reader.blobs| ==> reader.blobs[k].committed == old(reader.blobs[k].committed)
    ensures Later(old(reader.Look()), writer.Look())
    ensures stored <= |items| && (put.Ok? <==> stored == |items|)
    ensures Keeps(reader.files, writer.files) && AllStored(writer.files, items[..stored])
  {
    hide *;
    ghost var start := reader.Look();
    VaultApart(reader, reader.blobs);
    writer := Reopen(reader);
    SharedFootprint(reader.blobs, writer.blobs);
    VaultApart(reader, writer.blobs);
    HandlesApart(reader.blobs, writer.blobs);
    ghost var again := writer.Look();
    put, stored := PutAll(writer, items, ent);
    SameThenLater(start, again, writer.Look());
  }

  /** A reader goes on reading its files while another vault on the same blobs stores more, without looking
      at the blobs again.  Once it has handled their change it reads the new files too. */
  method ReadWhileWriting(reader: Vault, held: FileId, items: seq<(FileId, seq<byte>)>, ent: nat -> nat -> Entropy)
      returns (put: Result<()>, stored: nat, before: Result<seq<byte>>, after: Result<seq<byte>>,
               backs: seq<Result<seq<byte>>>)
    requires reader.Coherent() && forall i :: 0 <= i < |items| ==> |items[i].1| < U64_LIMIT
    modifies reader, FootprintOf(reader.blobs)
    ensures reader.Coherent() && Keeps(old(reader.files), reader.files)
    ensures held in old(reader.files) ==> before == after == Ok(old(reader.files)[held].Contents())
    ensures stored <= |items| && (put.Ok? <==> stored == |items|)
    ensures |backs| == stored && forall i :: 0 <= i < |backs| ==> backs[i] == Ok(items[i].1)
  {
    hide *;
    ghost var start, files, v := reader.Look(), reader.files, reader.index;
    CoherentMeans(reader);
    VaultApart(reader, reader.blobs);
    var writer;
    writer, put, stored := WriteElsewhere(reader, items, ent);
    CoherentMeans(reader);
    CoherentMeans(writer);
    Outdated(reader, start, writer);
    ghost var seen, w, written, known := reader.Look(), writer.index, writer.Look(), writer.files;
    before := ReadHeld(reader, held);
    CoherentMeans(reader);
    HandleAllChanged(reader, ShelvesOf(start));
    UpToDate(reader.hash, v, start, files, w, written, known, reader.index, seen);
    CoherentMeans(reader);
    reader.files := known;
    CoherentMeans(reader);
    reader.CoherentServes();
    backs := ReadStored(reader, items[..stored]);
    KeptAt(files, known, held);
    after := ReadHeld(reader, held);
    CoherentMeans(reader);
  }
}
