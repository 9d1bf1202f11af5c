/** The state of a vault as values: what each blob holds, and what loading, writing and reading do to it. */
module VaultState {
  import opened Basics
  import opened IndexCodec
  import opened Crypto
  import opened Disk
  import opened Ledger
  import opened Transaction
  import opened Commits
  import opened Handles
  import opened Sorting
  import opened Cache
  import opened Planner
  import opened Placement
  import opened Estimates
  import opened Assembly
  import opened Storing
  import opened Filing

  function ValidateConfig(cfg: VaultConfig): Result<()> {
    if cfg.maxChunkSize == 0 || cfg.maxBlobSize == 0 then Err(InvalidConfig) else Ok(())
  }

  /** All there is to see of a blob. */
  datatype Seen = Seen(id: BlobId, keys: Keys, cfg: BlobConfig, state: DiskState, log: seq<Op>, history: History,
                       committed: Option<Snapshot>)
  {
    /** The blob is between transactions and its handle's snapshot is that of some commit. */
    ghost predicate Settled() {
      Inv(keys, state, history) && SnapshotOk(history, committed)
    }

    function OnShelf(): Shelf {
      Shelf(id, keys, history.records)
    }
  }

  ghost predicate AllSettled(seen: seq<Seen>) {
    forall i :: 0 <= i < |seen| ==> seen[i].Settled()
  }

  /** File lengths are 64-bit numbers. */
  ghost predicate AllShort(seen: seq<Seen>) {
    forall i :: 0 <= i < |seen| ==> |seen[i].state.bytes| < U64_LIMIT
  }

  /** Nothing but the handles' snapshots differs. */
  ghost predicate SameDisks(a: seq<Seen>, b: seq<Seen>) {
    |a| == |b| && forall i :: 0 <= i < |a| ==> b[i] == a[i].(committed := b[i].committed)
  }

  /** The same blobs, with whatever has been committed to them since. */
  ghost predicate Later(was: seq<Seen>, now: seq<Seen>) {
    && |was| == |now|
    && forall k :: 0 <= k < |was| ==>
         now[k].id == was[k].id && now[k].keys == was[k].keys && Continues(was[k].history, now[k].history)
  }

  lemma LaterShelves(was: seq<Seen>, now: seq<Seen>)
    requires Later(was, now)
    ensures Extends(ShelvesOf(was), ShelvesOf(now))
  {
  }

  lemma SameLater(seen: seq<Seen>)
    ensures Later(seen, seen)
  {
  }

  lemma LaterStill(was: seq<Seen>, mid: seq<Seen>, now: seq<Seen>)
    requires Later(was, mid) && Later(mid, now)
    ensures Later(was, now)
  {
  }

  /** What each blob has committed. */
  function ShelvesOf(seen: seq<Seen>): (shelves: seq<Shelf>)
    ensures |shelves| == |seen|
  {
    seq(|seen|, i requires 0 <= i < |seen| => seen[i].OnShelf())
  }

  /** Every blob is between transactions, the merged index is fresh, and it holds every file put. */
  ghost predicate Consistent(hash: seq<byte> -> Hash, v: VaultIndex, seen: seq<Seen>, files: map<FileId, StoredFile>) {
    && AllSettled(seen) && Fresh(v, ShelvesOf(seen)) && Backed(v)
    && forall f :: f in files ==> Holds(hash, v, ShelvesOf(seen), f, files[f])
  }

  /** At every instant of any transaction on them, the blobs' committed chunks lie on their files. */
  ghost predicate AllReadable(seen: seq<Seen>) {
    forall i :: 0 <= i < |seen| ==> Readable(seen[i].keys, seen[i].state, seen[i].history)
  }

  /** What reading relies on: the index holds every file, however old it has become since it was loaded. */
  ghost predicate Served(hash: seq<byte> -> Hash, v: VaultIndex, seen: seq<Seen>, files: map<FileId, StoredFile>) {
    && AllReadable(seen) && AllShort(seen) && DistinctIds(ShelvesOf(seen))
    && forall f :: f in files ==> Holds(hash, v, ShelvesOf(seen), f, files[f])
  }

  lemma ConsistentServed(hash: seq<byte> -> Hash, v: VaultIndex, seen: seq<Seen>, files: map<FileId, StoredFile>)
    requires Consistent(hash, v, seen, files) && AllShort(seen)
    ensures Served(hash, v, seen, files)
  {
    hide Readable, SnapshotOk, Backed, Holds, Project;
    forall i | 0 <= i < |seen| ensures Readable(seen[i].keys, seen[i].state, seen[i].history) {
      assert seen[i].Settled();
    }
  }

  /** Whatever is committed to the blobs meanwhile, and whatever transaction is on its way, a vault that has
      not looked at them again goes on serving its files. */
  lemma ServedLater(hash: seq<byte> -> Hash, v: VaultIndex, was: seq<Seen>, seen: seq<Seen>,
                    files: map<FileId, StoredFile>)
    requires Served(hash, v, was, files) && Later(was, seen)
    requires AllReadable(seen) && AllShort(seen)
    ensures Served(hash, v, seen, files)
  {
    hide AllReadable, AllShort, Holds, Extends, DistinctIds, ShelvesOf;
    LaterShelves(was, seen);
    SameIds(ShelvesOf(was), ShelvesOf(seen));
    forall f | f in files ensures Holds(hash, v, ShelvesOf(seen), f, files[f]) {
      HoldsLater(hash, v, ShelvesOf(was), ShelvesOf(seen), f, files[f]);
    }
  }

  lemma SameIds(past: seq<Shelf>, now: seq<Shelf>)
    requires Extends(past, now) && |past| == |now| && DistinctIds(past)
    ensures DistinctIds(now)
  {
    assert forall k :: 0 <= k < |now| ==> now[k].id == past[k].id;
  }

  /** A view that lists all there is serves every file of a consistent vault on the same blobs. */
  lemma CaughtUp(hash: seq<byte> -> Hash, v: VaultIndex, start: seq<Seen>, w: VaultIndex, seen: seq<Seen>,
                 files: map<FileId, StoredFile>)
    requires Consistent(hash, v, start, files) && SameDisks(start, seen) && Fresh(w, ShelvesOf(seen))
    requires forall k :: 0 <= k < |seen| ==> SnapshotOk(seen[k].history, seen[k].committed)
    ensures Consistent(hash, w, seen, files)
  {
    hide Inv, SnapshotOk, Fresh, Backed, Holds, ShelvesOf;
    forall k | 0 <= k < |seen| ensures seen[k].Settled() {
      assert start[k].Settled();
    }
    RefreshedConsistent(hash, v, start, w, seen, files);
  }

  /** Looking again at one blob that has grown brings the view up to date in it, and keeps every file that
      what the blob has gained is not of. */
  lemma CatchesUp(hash: seq<byte> -> Hash, v: VaultIndex, past: seq<Shelf>, seen: seq<Seen>, k: nat,
                  files: map<FileId, StoredFile>)
    requires Fresh(v, past) && Extends(past, ShelvesOf(seen)) && k < |past| == |seen|
    ensures DistinctIds(ShelvesOf(seen))
    ensures var w := Replace(v, seen[k].id, IndexOf(seen[k].history.records));
      && Fresh(w, past[k := ShelvesOf(seen)[k]])
      && (Served(hash, v, seen, files) && NoneOf(Gained(past, ShelvesOf(seen), k), files.Keys) ==>
            Served(hash, w, seen, files))
  {
    hide AllReadable, AllShort, Holds, Project, AllKnown, Replace, IndexOf, NoneOf;
    var now := ShelvesOf(seen);
    LoadCatchesUp(v, past, now, k);
    if Served(hash, v, seen, files) && NoneOf(Gained(past, now, k), files.Keys) {
      forall f | f in files
        ensures Holds(hash, Replace(v, seen[k].id, IndexOf(seen[k].history.records)), now, f, files[f])
      {
        OnlyNoneOf(Gained(past, now, k), files.Keys, f);
        CatchUpHolds(hash, v, past, now, k, f, files[f]);
      }
    }
  }

  lemma OnlyNoneOf(rs: seq<Record>, files: set<FileId>, f: FileId)
    requires NoneOf(rs, files) && f in files
    ensures NoneOf(rs, {f})
  {
  }

  // Loading

  ghost predicate AllSound(seen: seq<Seen>) {
    forall i :: 0 <= i < |seen| ==> Inv(seen[i].keys, seen[i].state, seen[i].history)
  }

  /** The first `n` blobs have been loaded anew and their handles have new snapshots. */
  ghost predicate Reloaded(start: seq<Seen>, seen: seq<Seen>, loaded: map<BlobId, BlobIndex>, n: nat) {
    && LoadedUpTo(loaded, ShelvesOf(start), n) && n <= |seen|
    && forall j :: 0 <= j < n ==> seen[j].Settled()
  }

  /** The first `n` blobs' committed indexes have been loaded, and no others. */
  ghost predicate LoadedUpTo(loaded: map<BlobId, BlobIndex>, shelves: seq<Shelf>, n: nat) {
    && n <= |shelves|
    && (forall k :: 0 <= k < n ==> shelves[k].id in loaded && loaded[shelves[k].id] == IndexOf(shelves[k].records))
    && forall b :: b in loaded ==> Known(shelves, b)
  }

  lemma ReloadedNone(start: seq<Seen>)
    ensures Reloaded(start, start, map[], 0)
  {
  }

  lemma SameItself(seen: seq<Seen>)
    ensures SameDisks(seen, seen)
  {
  }

  lemma SnapshotOnly(start: seq<Seen>, before: seq<Seen>, now: seq<Seen>, k: nat)
    requires SameDisks(start, before) && AllShort(before) && k < |before| == |now|
    requires now == before[k := before[k].(committed := now[k].committed)]
    ensures SameDisks(start, now) && AllShort(now)
  {
  }

  lemma ReloadedNext(start: seq<Seen>, before: seq<Seen>, loaded: map<BlobId, BlobIndex>, n: nat, now: seq<Seen>)
    requires SameDisks(start, before) && AllSound(start) && DistinctIds(ShelvesOf(start)) && n < |before| == |now|
    requires Reloaded(start, before, loaded, n)
    requires now == before[n := before[n].(committed := now[n].committed)]
    requires var s := before[n]; Inv(s.keys, s.state, s.history) ==> now[n].Settled()
    ensures Inv(before[n].keys, before[n].state, before[n].history)
    ensures Reloaded(start, now, loaded[before[n].id := IndexOf(before[n].history.records)], n + 1)
  {
    hide Inv, IndexOf, Seen.Settled;
    KnownAt(ShelvesOf(start), n);
    hide Known;
  }

  lemma ReloadedAll(v: VaultIndex, loaded: map<BlobId, BlobIndex>, start: seq<Seen>, seen: seq<Seen>)
    requires Agrees(v, loaded) && DistinctIds(ShelvesOf(start)) && SameDisks(start, seen)
    requires Reloaded(start, seen, loaded, |start|)
    ensures Fresh(v, ShelvesOf(seen)) && AllSettled(seen)
  {
    hide Fresh, Agrees, DistinctIds, LoadedUpTo, Seen.Settled;
    FreshFromLoaded(v, loaded, ShelvesOf(start));
    assert ShelvesOf(seen) == ShelvesOf(start);
  }

  lemma FreshFromLoaded(v: VaultIndex, loaded: map<BlobId, BlobIndex>, shelves: seq<Shelf>)
    requires Agrees(v, loaded) && DistinctIds(shelves) && LoadedUpTo(loaded, shelves, |shelves|)
    ensures Fresh(v, shelves)
  {
    hide Of, IndexOf, Known;
    forall k | 0 <= k < |shelves| ensures Project(v, shelves[k].id) == IndexOf(shelves[k].records) {
      assert Project(v, shelves[k].id) == LoadedIndex(loaded, shelves[k].id);
    }
    forall i | 0 <= i < |v.chunks| ensures Known(shelves, v.chunks[i].blobId) {
      ListedIsOf(v.chunks, i);
      assert Project(v, v.chunks[i].blobId) == LoadedIndex(loaded, v.chunks[i].blobId);
    }
    forall i | 0 <= i < |v.completed| ensures Known(shelves, v.completed[i].blobId) {
      ListedIsOf(v.completed, i);
      assert Project(v, v.completed[i].blobId) == LoadedIndex(loaded, v.completed[i].blobId);
    }
  }

  /** Loading every blob anew keeps every file, whoever stored it. */
  lemma RefreshedConsistent(hash: seq<byte> -> Hash, v: VaultIndex, start: seq<Seen>, w: VaultIndex, seen: seq<Seen>,
                            files: map<FileId, StoredFile>)
    requires Consistent(hash, v, start, files) && SameDisks(start, seen)
    requires Fresh(w, ShelvesOf(seen)) && AllSettled(seen)
    ensures Consistent(hash, w, seen, files)
  {
    assert ShelvesOf(seen) == ShelvesOf(start);
    hide AllSettled, Fresh, Backed, Holds, ShelvesOf;
    FreshViews(v, w, ShelvesOf(seen));
    SameEntries(hash, v, w, ShelvesOf(seen));
  }

  /** What refreshing relies on. */
  lemma ConsistentSound(hash: seq<byte> -> Hash, v: VaultIndex, seen: seq<Seen>, files: map<FileId, StoredFile>)
    requires Consistent(hash, v, seen, files)
    ensures AllSound(seen) && DistinctIds(ShelvesOf(seen))
  {
    hide Inv, SnapshotOk, Backed, Holds, Project;
    forall i | 0 <= i < |seen| ensures Inv(seen[i].keys, seen[i].state, seen[i].history) {
      assert seen[i].Settled();
    }
  }

  /** Empty blobs hold no files, and nothing needs to be listed of them. */
  lemma EmptyConsistent(hash: seq<byte> -> Hash, seen: seq<Seen>)
    requires AllSettled(seen) && DistinctIds(ShelvesOf(seen))
    requires forall i :: 0 <= i < |seen| ==> seen[i].history.records == []
    ensures Consistent(hash, EMPTY_VAULT_INDEX, seen, map[])
  {
    hide AllSettled;
  }

  /** Loading a settled blob again changes nothing but the order of the merged index. */
  lemma ReloadConsistent(hash: seq<byte> -> Hash, v: VaultIndex, seen: seq<Seen>, files: map<FileId, StoredFile>,
                         k: nat)
    requires Consistent(hash, v, seen, files) && k < |seen|
    ensures Consistent(hash, Replace(v, seen[k].id, IndexOf(seen[k].history.records)), seen, files)
  {
    hide AllSettled, Fresh, Backed, Holds, IndexOf, Replace;
    var shelves := ShelvesOf(seen);
    CommitKeepsFresh(v, shelves, k, []);
    assert shelves[k].records + [] == shelves[k].records;
    assert Shelve(shelves, k, []) == shelves;
    NothingTagged(shelves[k].id);
    SameEntries(hash, v, Replace(v, seen[k].id, IndexOf(seen[k].history.records)), shelves);
  }

  lemma AppendedShort(before: seq<Seen>, now: seq<Seen>)
    requires AllShort(before) && |now| == |before| + 1 && |now[|before|].state.bytes| < U64_LIMIT
    requires now[..|before|] == before
    ensures AllShort(now) && now == before + [now[|before|]]
  {
  }

  /** Attaching a blob keeps the merged index fresh; attaching an empty one keeps everything. */
  lemma AppendedConsistent(hash: seq<byte> -> Hash, v: VaultIndex, seen: seq<Seen>, last: Seen,
                           files: map<FileId, StoredFile>)
    requires !Known(ShelvesOf(seen), last.id)
    ensures var w := Replace(v, last.id, IndexOf(last.history.records));
      && (Fresh(v, ShelvesOf(seen)) ==> Fresh(w, ShelvesOf(seen + [last])))
      && (Consistent(hash, v, seen, files) && last.Settled() && last.history.records == [] ==>
            Consistent(hash, w, seen + [last], files) && w == v)
  {
    hide Fresh, Backed, Holds, IndexOf, Replace, Known, Seen.Settled;
    var shelves := ShelvesOf(seen);
    assert ShelvesOf(seen + [last]) == shelves + [last.OnShelf()];
    if Fresh(v, shelves) {
      AppendFresh(v, shelves, last.OnShelf());
      if last.history.records == [] {
        AppendEmpty(v, shelves, last.id);
      }
    }
    if Consistent(hash, v, seen, files) && last.Settled() && last.history.records == [] {
      forall f | f in files ensures Holds(hash, v, shelves + [last.OnShelf()], f, files[f]) {
        HoldsLater(hash, v, shelves, shelves + [last.OnShelf()], f, files[f]);
      }
    }
  }

  // Writing a planned file

  /** Why a blob does not take a request: a chunk is too long, or a sum overflows. */
  ghost predicate Refuses(s: Seen, req: Request, ent: Entropy, e: Error) {
    || (e == InvalidChunkSize && !ChunksFit(req.chunks))
    || (e == IntegerOverflow && s.history.commits != [] && Tx(s.keys, s.cfg, s.state, s.history, req, ent).Overflows())
  }

  /** What writing one blob did to it. */
  ghost predicate Written(s: Seen, now: Seen, req: Request, ent: Entropy, r: Result<WriteResult>) {
    s.Settled() &&
    (var t := Tx(s.keys, s.cfg, s.state, s.history, req, ent);
     match r
     case Err(e) => now == s && Refuses(s, req, ent, e)
     case Ok(result) =>
       && t.Ready() && now.Settled() && now.id == s.id && now.keys == s.keys && now.cfg == s.cfg
       && now.history == t.After() && now.state == ApplyAll(s.state, t.Script()) && now.log == s.log + t.Script()
       && result.index == IndexOf(t.Records()))
  }

  /** Why a put is refused before anything is written. */
  ghost function Refused(v: VaultIndex, sizes: seq<Result<u64>>, cfg: VaultConfig, cursor: nat, f: FileId,
                         contents: seq<byte>): Option<Error>
    requires cfg.maxChunkSize > 0
  {
    if FileChunks(v, f) != [] then Some(FileAlreadyExists)
    else
      match PlanFile(sizes, cfg, cursor, f, contents)
      case Err(e) => Some(e)
      case Ok(_) => None
  }

  /** How many chunks a blob has committed. */
  function ChunksOn(s: Seen): nat {
    |IndexOf(s.history.records).chunks|
  }

  /** The groups of the first `m` blobs have been written: their frames and indexes have grown by exactly
      what the plan charges them, and their chunks by those it gives them.  The others are as they were. */
  ghost predicate Grew(start: seq<Seen>, seen: seq<Seen>, plan: seq<Assigned>, m: nat) {
    && plan != [] && |seen| == |start| && m <= |start|
    && forall k :: 0 <= k < |start| ==>
         if k < m then
           && SizeOf(seen[k].history.records)
              == SizeOf(start[k].history.records) + (if Touched(plan, k) then Charged(plan, k) else 0)
           && ChunksOn(seen[k]) == ChunksOn(start[k]) + |Group(plan, k)|
         else seen[k].history.records == start[k].history.records
  }

  /** The blob takes the request: no chunk is too long and no sum overflows. */
  ghost predicate Writable(s: Seen, req: Request, ent: Entropy) {
    s.history.commits != [] && Tx(s.keys, s.cfg, s.state, s.history, req, ent).Fits()
  }

  /** Of the first `m` blobs, each that the plan touches takes its group. */
  ghost predicate WritableUpTo(start: seq<Seen>, plan: seq<Assigned>, c: CompleteEntry, ent: nat -> Entropy, m: nat) {
    && plan != [] && m <= |start|
    && forall k :: 0 <= k < m && Touched(plan, k) ==> Writable(start[k], GroupRequest(plan, c, k), ent(k))
  }

  /** How far a put comes: past every blob, all of which take their groups, or up to the first that does
      not take its own. */
  ghost predicate Extent(start: seq<Seen>, plan: seq<Assigned>, c: CompleteEntry, ent: nat -> Entropy, m: nat,
                         r: Result<()>) {
    && WritableUpTo(start, plan, c, ent, m)
    && if r.Ok? then m == |start|
       else m < |start| && Touched(plan, m) && Refuses(start[m], GroupRequest(plan, c, m), ent(m), r.error)
  }

  /** What a put that is not refused does: it stores the file and nothing else, or it fails for the size
      of a number at the first blob that does not take its group.  Then no file is added and what was
      written of it cannot be read as one.  Either way the blobs keep all they had committed, and none
      exceeds the bound. */
  ghost predicate PutOutcome(start: seq<Seen>, files0: map<FileId, StoredFile>, v: VaultIndex, seen: seq<Seen>,
                             files: map<FileId, StoredFile>, f: FileId, contents: seq<byte>, plan: seq<Assigned>,
                             c: CompleteEntry, ent: nat -> Entropy, cfg: VaultConfig, r: Result<()>)
  {
    && Later(start, seen) && Bounded(start, seen, cfg.maxBlobSize)
    && (exists m :: 0 <= m <= |start| && Extent(start, plan, c, ent, m, r) && Grew(start, seen, plan, m))
    && match r
       case Err(e) =>
         (e == IntegerOverflow || e == InvalidChunkSize) && files == files0 && EnsureFileComplete(v, f).Err?
       case Ok(_) =>
         f !in files0 && f in files && files == files0[f := files[f]] && files[f].Contents() == contents
  }

  /** A put that is not refused succeeds exactly if every blob it touches takes its group. */
  lemma PutOkIff(start: seq<Seen>, plan: seq<Assigned>, c: CompleteEntry, ent: nat -> Entropy, m: nat, r: Result<()>)
    requires Extent(start, plan, c, ent, m, r)
    ensures r.Ok? <==> WritableUpTo(start, plan, c, ent, |start|)
  {
    if r.Err? {
      RefusesIs(start[m], GroupRequest(plan, c, m), ent(m), r.error);
    }
    hide Writable, Touched, GroupRequest, Refuses;
  }

  lemma SettledCommits(s: Seen)
    requires s.Settled()
    ensures s.history.commits != []
  {
  }

  lemma RefusesIs(s: Seen, req: Request, ent: Entropy, e: Error)
    requires Refuses(s, req, ent, e)
    ensures !Writable(s, req, ent) && (e == IntegerOverflow || e == InvalidChunkSize)
  {
  }

  /** No blob's frames and index exceed the bound, unless they did before and have not grown. */
  ghost predicate Bounded(start: seq<Seen>, seen: seq<Seen>, max: nat) {
    && |seen| == |start|
    && forall k :: 0 <= k < |start| ==>
         SizeOf(seen[k].history.records) <= Max(SizeOf(start[k].history.records), max)
  }

  /** The groups of the first `k` blobs are written and every blob is between transactions. */
  ghost predicate Writing(v0: VaultIndex, start: seq<Seen>, plan: seq<Assigned>, c: CompleteEntry, k: nat,
                          v: VaultIndex, seen: seq<Seen>)
  {
    && Later(start, seen) && AllSettled(start) && AllSettled(seen)
    && Progress(v0, ShelvesOf(start), plan, c, k, v, ShelvesOf(seen)) && LastBlob(plan) < |start|
  }

  /** The groups of a plan, by position of their blob. */
  ghost predicate Grouping(plan: seq<Assigned>, groups: map<nat, seq<NewChunk>>) {
    && (forall k :: k in groups <==> Touched(plan, k))
    && forall k :: k in groups ==> groups[k] == Group(plan, k)
  }

  /** What is written to blob `k`: its group, and the completion if it is the last. */
  function GroupRequest(plan: seq<Assigned>, c: CompleteEntry, k: nat): Request
    requires plan != []
  {
    Request(Group(plan, k), Completions(plan, c, k))
  }

  lemma LastGroup(plan: seq<Assigned>, groups: map<nat, seq<NewChunk>>, n: nat)
    requires plan != [] && Grouping(plan, groups) && forall i :: 0 <= i < |plan| ==> plan[i].blob < n
    ensures LastKey(groups, n) == Some(LastBlob(plan)) && LastBlob(plan) < n
  {
    LastBlobIsLast(plan);
    LastBlobBelow(plan, n);
    var last, r := LastBlob(plan), LastKey(groups, n);
    hide Touched, LastBlob, LastKey, Group;
    assert last in groups;
    assert r.Some? && r.value in groups && last <= r.value;
    assert Touched(plan, r.value);
  }

  lemma GroupAt(plan: seq<Assigned>, groups: map<nat, seq<NewChunk>>, c: CompleteEntry, k: nat)
    requires plan != [] && Grouping(plan, groups)
    ensures k in groups <==> Touched(plan, k)
    ensures k in groups ==>
      GroupRequest(plan, c, k) == Request(groups[k], if k == LastBlob(plan) then [c] else []) && k <= LastBlob(plan)
  {
    LastBlobIsLast(plan);
    hide Touched, LastBlob, Group;
  }

  /** The completion a put lists. */
  function CompletionOf(f: FileId, plan: seq<Assigned>, contents: seq<byte>, hash: seq<byte> -> Hash): CompleteEntry {
    CompleteEntry(f, Min(|plan|, U64_LIMIT - 1), hash(contents))
  }

  lemma WritingStart(v0: VaultIndex, start: seq<Seen>, plan: seq<Assigned>, c: CompleteEntry)
    requires AllSettled(start) && Fresh(v0, ShelvesOf(start)) && plan != [] && LastBlob(plan) < |start|
    ensures Writing(v0, start, plan, c, 0, v0, start)
  {
    hide Fresh, Seen.Settled, LastBlob, Progress;
    ProgressStart(v0, ShelvesOf(start), plan, c);
  }

  lemma WritableNext(start: seq<Seen>, plan: seq<Assigned>, c: CompleteEntry, ent: nat -> Entropy, k: nat)
    requires WritableUpTo(start, plan, c, ent, k) && k < |start|
    requires Touched(plan, k) ==> Writable(start[k], GroupRequest(plan, c, k), ent(k))
    ensures WritableUpTo(start, plan, c, ent, k + 1)
  {
    hide Writable, Touched, GroupRequest;
  }

  lemma WrittenErrors(s: Seen, now: Seen, req: Request, ent: Entropy, r: Result<WriteResult>)
    requires Written(s, now, req, ent, r)
    ensures r.Ok? <==> Writable(s, req, ent)
    ensures r.Err? ==> Refuses(s, req, ent, r.error) && (r.error == IntegerOverflow || r.error == InvalidChunkSize)
  {
    hide SnapshotOk, HistoryOk, SlotOk, FramesOn, RegionsIn, Cipher, Tx.Fits, ApplyAll, Tx.Script, Tx.Records, Refuses;
    if r.Err? {
      RefusesIs(s, req, ent, r.error);
    }
  }

  lemma WritingSettled(v0: VaultIndex, start: seq<Seen>, plan: seq<Assigned>, c: CompleteEntry, k: nat,
                       v: VaultIndex, seen: seq<Seen>)
    requires Writing(v0, start, plan, c, k, v, seen) && k < |seen|
    ensures seen[k].Settled()
  {
    hide Progress, Seen.Settled, LastBlob;
  }

  /** The records a transaction adds are the group of its blob. */
  lemma TransactionIsGroup(s: Seen, plan: seq<Assigned>, c: CompleteEntry, k: nat, ent: Entropy)
    requires plan != []
    requires Tx(s.keys, s.cfg, s.state, s.history, Request(Group(plan, k), Completions(plan, c, k)), ent).Ready()
    ensures GroupFits(s.OnShelf(), plan, k)
    ensures Tx(s.keys, s.cfg, s.state, s.history, Request(Group(plan, k), Completions(plan, c, k)), ent).Records()
         == s.history.records + GroupRecords(s.OnShelf(), plan, c, k)
  {
    hide Inv, ChunkBytes, ChunkRecords, CompleteRecords, Group, LastBlob, Ledger.Tail;
  }

  lemma WrittenLater(start: seq<Seen>, seen: seq<Seen>, now: seq<Seen>, k: nat, req: Request, ent: Entropy,
                     result: WriteResult)
    requires Later(start, seen) && k < |seen| == |now| && now == seen[k := now[k]]
    requires Written(seen[k], now[k], req, ent, Ok(result))
    ensures Later(start, now)
  {
    hide Seen.Settled, Tx.Ready, Tx.Script, Tx.NewChunkRecords, ApplyAll, IndexOf;
    LaterStill(start, seen, now);
  }

  /** Writing a group adds its records to the blob, and no others. */
  lemma WrittenGroup(s: Seen, now: Seen, plan: seq<Assigned>, c: CompleteEntry, k: nat, req: Request, ent: Entropy,
                     result: WriteResult)
    requires plan != [] && req == GroupRequest(plan, c, k) && Written(s, now, req, ent, Ok(result))
    ensures GroupFits(s.OnShelf(), plan, k) && now.Settled()
    ensures now.OnShelf() == s.OnShelf().(records := s.history.records + GroupRecords(s.OnShelf(), plan, c, k))
    ensures result.index == IndexOf(now.history.records)
  {
    TransactionIsGroup(s, plan, c, k, ent);
    hide Seen.Settled, GroupFits, GroupRecords, Tx.Ready, Tx.Records, Tx.Script, ApplyAll, IndexOf, Group, Completions;
  }

  lemma WritingStep(v0: VaultIndex, start: seq<Seen>, plan: seq<Assigned>, c: CompleteEntry, k: nat, v: VaultIndex,
                    seen: seq<Seen>, now: seq<Seen>, req: Request, ent: Entropy, result: WriteResult)
    requires Writing(v0, start, plan, c, k, v, seen) && k < |seen| == |now| && now == seen[k := now[k]]
    requires req == GroupRequest(plan, c, k)
    requires Written(seen[k], now[k], req, ent, Ok(result))
    ensures Writing(v0, start, plan, c, k + 1, Replace(v, seen[k].id, result.index), now)
  {
    hide Seen.Settled, LastBlob, Later, Written, GroupFits, GroupRecords, GroupRequest, IndexOf, Replace, Fresh, AddedChunks,
         AddedCompletes;
    WrittenLater(start, seen, now, k, req, ent, result);
    WrittenGroup(seen[k], now[k], plan, c, k, req, ent, result);
    var shelves, shelf := ShelvesOf(start), seen[k].OnShelf();
    FitsNext(shelves, plan, c, k);
    assert ShelvesOf(seen)[k] == shelf && shelves[k] == shelf;
    ProgressStep(v0, shelves, plan, c, k, v, ShelvesOf(seen));
    assert ShelvesOf(now) == Shelve(ShelvesOf(seen), k, GroupRecords(shelf, plan, c, k));
    hide Progress;
  }

  lemma WritingSkip(v0: VaultIndex, start: seq<Seen>, plan: seq<Assigned>, c: CompleteEntry, k: nat,
                    v: VaultIndex, seen: seq<Seen>)
    requires Writing(v0, start, plan, c, k, v, seen) && k < |start| && !Touched(plan, k)
    ensures Writing(v0, start, plan, c, k + 1, v, seen)
  {
    hide LastBlob, Touched, Progress, SnapshotOk, Readable, Tail;
    assert start[k].Settled();
    ProgressSkip(v0, ShelvesOf(start), plan, c, k, v, ShelvesOf(seen));
    hide Seen.Settled;
  }

  /** A put that stops half-way leaves the vault consistent, with the files it had. */
  lemma PutStopped(hash: seq<byte> -> Hash, v0: VaultIndex, start: seq<Seen>, files0: map<FileId, StoredFile>,
                   plan: seq<Assigned>, c: CompleteEntry, k: nat, v: VaultIndex, seen: seq<Seen>, f: FileId)
    requires Consistent(hash, v0, start, files0) && Writing(v0, start, plan, c, k, v, seen)
    requires PlanOf(plan, f) && c.fileId == f && FileChunks(v0, f) == []
    ensures Consistent(hash, v, seen, files0) && f !in files0
  {
    hide AllSettled, Backed, Holds, LastBlob, PlanOf, FileChunks;
    var shelves, now := ShelvesOf(start), ShelvesOf(seen);
    if f in files0 {
      HeldHasChunks(hash, v0, shelves, f, files0[f]);
      assert false;
    }
    PutBacked(v0, shelves, plan, c, k, v, now, f);
    forall g | g in files0 ensures Holds(hash, v, now, g, files0[g]) {
      PutKeeps(hash, v0, shelves, plan, c, k, v, now, f, g, files0[g]);
    }
    assert Fresh(v, now);
    hide Progress, Fresh;
  }

  /** A put that stops half-way has listed no completion, so nothing of the file can be read. */
  lemma PutIncomplete(hash: seq<byte> -> Hash, v0: VaultIndex, start: seq<Seen>, files0: map<FileId, StoredFile>,
                      plan: seq<Assigned>, c: CompleteEntry, k: nat, v: VaultIndex, seen: seq<Seen>, f: FileId)
    requires Consistent(hash, v0, start, files0) && Writing(v0, start, plan, c, k, v, seen)
    requires plan != [] && k <= LastBlob(plan) && FileChunks(v0, f) == []
    ensures EnsureFileComplete(v, f).Err?
  {
    hide AllSettled, Holds, LastBlob, Filter, Fresh, FitsUpTo, ShelvedUpTo, AddedChunks;
    assert FileCompletes(v0, f) == [];
    FilterIgnores(CompletesFile(f), v0.completed, v.completed, multiset{});
    OfNothing(FileCompletes(v, f));
  }

  /** A put that finishes has stored the file besides those there were. */
  lemma PutFinished(hash: seq<byte> -> Hash, v0: VaultIndex, start: seq<Seen>, files0: map<FileId, StoredFile>,
                    plan: seq<Assigned>, c: CompleteEntry, v: VaultIndex, seen: seq<Seen>, f: FileId,
                    pieces: seq<seq<byte>>)
    requires Consistent(hash, v0, start, files0) && Writing(v0, start, plan, c, |start|, v, seen)
    requires Covers(plan, |start|, f, pieces) && |pieces| < U64_LIMIT && |Join(pieces)| < U64_LIMIT
    requires PlanOf(plan, f) && c == CompleteEntry(f, |plan|, hash(Join(pieces))) && FileChunks(v0, f) == []
    ensures Placeable(ShelvesOf(start), plan) && plan != [] && LastBlob(plan) < |start|
    ensures f !in files0
    ensures Consistent(hash, v, seen, files0[f := StoredAs(ShelvesOf(start), plan, pieces)])
  {
    hide AllSettled, Holds, LastBlob, PlanOf, FileChunks, FileCompletes, Fresh, Covers, Join, Progress;
    PutStopped(hash, v0, start, files0, plan, c, |start|, v, seen, f);
    assert FileCompletes(v0, f) == [];
    PutHolds(hash, v0, ShelvesOf(start), plan, c, v, ShelvesOf(seen), f, pieces);
    WritingSettles(v0, start, plan, c, |start|, v, seen);
    hide Backed, Writing, Placeable;
  }

  lemma ShelfGrew(shelf: Shelf, after: seq<Record>, plan: seq<Assigned>, c: CompleteEntry, k: nat)
    requires plan != [] && GroupFits(shelf, plan, k) && Placed(shelf.keys, shelf.records) && Tail(shelf.records) < U64_LIMIT
    requires after == shelf.records + GroupRecords(shelf, plan, c, k)
    ensures SizeOf(after) == SizeOf(shelf.records) + if Touched(plan, k) then Charged(plan, k) else 0
    ensures |IndexOf(after).chunks| == |IndexOf(shelf.records).chunks| + |Group(plan, k)|
  {
    GroupCounted(shelf, plan, c, k);
    hide IndexOf, Group;
    hide SizeOf, GroupRecords, Charged, Touched, Placed, Tail;
    if Touched(plan, k) {
      GroupSize(shelf, plan, c, k);
    } else {
      NothingForUntouched(shelf, plan, c, k);
      assert after == shelf.records;
    }
  }

  lemma GroupCounted(shelf: Shelf, plan: seq<Assigned>, c: CompleteEntry, k: nat)
    requires plan != [] && GroupFits(shelf, plan, k)
    ensures |IndexOf(shelf.records + GroupRecords(shelf, plan, c, k)).chunks|
         == |IndexOf(shelf.records).chunks| + |Group(plan, k)|
  {
    IndexOfGroup(shelf, plan, c, k);
    var rs := GroupChunks(shelf, plan, k);
    ChunkRecordsKind(shelf.keys, Ledger.Tail(shelf.records), Group(plan, k));
    forall i | 0 <= i < |Entries(rs)| ensures Entries(rs)[i].Chunk? {
      assert rs[i] in rs;
    }
    CollectAll(Entries(rs));
    EntriesAppend(shelf.records, GroupRecords(shelf, plan, c, k));
  }

  lemma PutGrew(v0: VaultIndex, start: seq<Seen>, plan: seq<Assigned>, c: CompleteEntry, m: nat, v: VaultIndex,
                seen: seq<Seen>)
    requires Writing(v0, start, plan, c, m, v, seen)
    ensures Grew(start, seen, plan, m)
  {
    hide Fresh, LastBlob, Touched, GroupRecords, GroupFits, SizeOf, Charged, Seen.Settled;
    var shelves := ShelvesOf(start);
    forall k | 0 <= k < |start|
      ensures k < m ==>
        SizeOf(seen[k].history.records)
          == SizeOf(start[k].history.records) + if Touched(plan, k) then Charged(plan, k) else 0
      ensures k < m ==> ChunksOn(seen[k]) == ChunksOn(start[k]) + |Group(plan, k)|
      ensures k >= m ==> seen[k].history.records == start[k].history.records
    {
      assert start[k].Settled();
      assert ShelvesOf(seen)[k] == ShelvedUpTo(shelves, plan, c, m)[k];
      if k < m {
        SettledPlaced(start[k]);
        ShelfGrew(shelves[k], seen[k].history.records, plan, c, k);
      }
    }
  }

  lemma SettledPlaced(s: Seen)
    requires s.Settled()
    ensures Placed(s.keys, s.history.records) && Tail(s.history.records) < U64_LIMIT
    ensures 0 <= SizeOf(s.history.records) < U64_LIMIT
  {
    hide SlotOk, FramesOn, RegionsIn, CommitOk, SnapshotOk;
    SizeBelowFile(s.keys, s.state, s.history);
  }

  // Reading

  /** What reading code finds in the merged index for a file put. */
  lemma HeldFile(hash: seq<byte> -> Hash, v: VaultIndex, seen: seq<Seen>, files: map<FileId, StoredFile>, f: FileId)
    requires Served(hash, v, seen, files) && f in files
    ensures var s := files[f];
      && |s.chunks| == |s.pieces| < U64_LIMIT && |s.Contents()| < U64_LIMIT
      && OrderedChunks(v, f) == Ok(s.chunks) && LengthSum(s.chunks) == Ok(|s.Contents()|)
      && EnsureFileComplete(v, f) == Ok(())
      && LatestComplete(v, f) == Ok(Located(s.completeOn, CompleteEntry(f, |s.chunks|, hash(s.Contents()))))
      && ChunksHold(ShelvesOf(seen), f, s)
  {
    hide OrderedChunks, EnsureFileComplete, LatestComplete, AllReadable, AllShort, FileChunks, FileCompletes;
    OrderedStored(hash, v, ShelvesOf(seen), f, files[f]);
    CompleteStored(hash, v, ShelvesOf(seen), f, files[f]);
    LengthSumStored(files[f].chunks, files[f].pieces);
  }

  function Ids(seen: seq<Seen>): (ids: seq<BlobId>)
    ensures |ids| == |seen|
  {
    seq(|seen|, i requires 0 <= i < |seen| => seen[i].id)
  }

  /** The first position of an id, from a position on. */
  function PositionOf(ids: seq<BlobId>, b: BlobId, from: nat): (r: Result<nat>)
    requires from <= |ids|
    ensures match r
            case Ok(k) => from <= k < |ids| && ids[k] == b && forall j :: from <= j < k ==> ids[j] != b
            case Err(e) => e == BlobNotFound && forall j :: from <= j < |ids| ==> ids[j] != b
    decreases |ids| - from
  {
    if from == |ids| then Err(BlobNotFound)
    else if ids[from] == b then Ok(from)
    else PositionOf(ids, b, from + 1)
  }

  /** What reading a chunk from the blob that lists it gives. */
  function LocatedRead(seen: seq<Seen>, x: Located<ChunkEntry>): Result<seq<byte>> {
    var k :- PositionOf(Ids(seen), x.blobId, 0);
    ReadChunkAt(seen[k].keys, seen[k].state, x.entry)
  }

  lemma LocatedLength(seen: seq<Seen>, x: Located<ChunkEntry>)
    ensures LocatedRead(seen, x).Ok? ==> |LocatedRead(seen, x).value| == x.entry.plaintextLength
  {
  }

  /** The chunks read as the pieces. */
  ghost predicate PiecesRead(seen: seq<Seen>, chunks: seq<Located<ChunkEntry>>, pieces: seq<seq<byte>>) {
    && |chunks| == |pieces|
    && forall i :: 0 <= i < |chunks| ==>
         chunks[i].entry.plaintextLength == |pieces[i]| && LocatedRead(seen, chunks[i]) == Ok(pieces[i])
  }

  /** A record of a blob reads back. */
  lemma RecordReads(s: Seen, j: nat)
    requires Readable(s.keys, s.state, s.history) && |s.state.bytes| < U64_LIMIT
    requires j < |s.history.records| && s.history.records[j].ChunkRecord?
    ensures ReadChunkAt(s.keys, s.state, s.history.records[j].chunk) == Ok(s.history.records[j].plaintext)
  {
    hide HistoryOk, SlotOk, FramesOn, RegionsIn, DecryptChunk;
    ReadableChunks(s.keys, s.state, s.history);
  }

  lemma ResolvedReads(seen: seq<Seen>, x: Located<ChunkEntry>, plaintext: seq<byte>)
    requires AllReadable(seen) && AllShort(seen) && DistinctIds(ShelvesOf(seen)) && Resolves(ShelvesOf(seen), x, plaintext)
    ensures LocatedRead(seen, x) == Ok(plaintext)
  {
    hide ReadChunkAt, Readable;
    var shelves := ShelvesOf(seen);
    var k, j :| 0 <= k < |shelves| && 0 <= j < |shelves[k].records| && shelves[k].id == x.blobId
                && shelves[k].records[j] == ChunkRecord(x.entry, plaintext);
    assert seen[k].id == x.blobId && seen[k].history.records[j] == ChunkRecord(x.entry, plaintext);
    var p := PositionOf(Ids(seen), x.blobId, 0);
    assert Ids(seen)[k] == x.blobId;
    assert shelves[p.value].id == x.blobId;
    OnlyPosition(shelves, k);
    RecordReads(seen[k], j);
  }

  /** Every chunk of a file put reads back. */
  lemma HeldPieces(hash: seq<byte> -> Hash, v: VaultIndex, seen: seq<Seen>, files: map<FileId, StoredFile>, f: FileId)
    requires Served(hash, v, seen, files) && f in files
    ensures PiecesRead(seen, files[f].chunks, files[f].pieces)
  {
    hide AllReadable, AllShort, Listed, Resolves, LocatedRead, DistinctIds;
    var s := files[f];
    forall i | 0 <= i < |s.chunks| ensures LocatedRead(seen, s.chunks[i]) == Ok(s.pieces[i]) {
      ResolvedReads(seen, s.chunks[i], s.pieces[i]);
    }
  }

  // Capacity

  /** With a fresh index the planner's estimates are the blobs' real sizes. */
  lemma SizesExact(v: VaultIndex, seen: seq<Seen>)
    requires AllSettled(seen) && Fresh(v, ShelvesOf(seen))
    ensures forall k :: 0 <= k < |seen| ==> EstimatedSize(v, seen[k].id) == Ok(SizeOf(seen[k].history.records))
  {
    hide Seen.Settled, EstimatedSize, SizeOf, Project, IndexOf, Known;
    forall k | 0 <= k < |seen| ensures EstimatedSize(v, seen[k].id) == Ok(SizeOf(seen[k].history.records)) {
      SettledPlaced(seen[k]);
      assert ShelvesOf(seen)[k] == seen[k].OnShelf();
      EstimateExact(v, seen[k].OnShelf());
    }
  }

  /** The plan is the planner's, from the merged index's estimates, for a file the index does not list. */
  ghost predicate PlannedFrom(sizes: seq<Result<u64>>, v: VaultIndex, start: seq<Seen>, cfg: VaultConfig, cursor: nat,
                              f: FileId, contents: seq<byte>, plan: seq<Assigned>)
  {
    && cfg.maxChunkSize > 0 && |contents| < U64_LIMIT && FileChunks(v, f) == []
    && |sizes| == |start| && (forall k :: 0 <= k < |start| ==> sizes[k] == EstimatedSize(v, start[k].id))
    && PlanFile(sizes, cfg, cursor, f, contents) == Ok(plan)
  }

  /** A plan that has been written whole did not wrap: what it put on its last blob fits a file. */
  lemma WrittenChargeFits(start: seq<Seen>, seen: seq<Seen>, plan: seq<Assigned>)
    requires AllSettled(start) && AllSettled(seen) && Grew(start, seen, plan, |start|) && LastBlob(plan) < |start|
    ensures PlannedBytes(plan, LastBlob(plan)) + FILE_COMPLETE_ENTRY_WIRE_LEN < U64_LIMIT
  {
    LastBlobIsLast(plan);
    hide Seen.Settled, SizeOf, LastBlob, PlannedBytes, Touched;
    SettledPlaced(start[LastBlob(plan)]);
    SettledPlaced(seen[LastBlob(plan)]);
  }

  /** A put keeps every blob within the bound, under every configuration, whether it is finished or stops
      half-way: what the planner's unchecked addition could hide is too long for a file, so that the last
      group is never written. */
  lemma PutBounded(sizes: seq<Result<u64>>, v: VaultIndex, start: seq<Seen>, cfg: VaultConfig, cursor: nat, f: FileId,
                   contents: seq<byte>, plan: seq<Assigned>, seen: seq<Seen>, m: nat)
    requires AllSettled(start) && Fresh(v, ShelvesOf(start)) && PlannedFrom(sizes, v, start, cfg, cursor, f, contents, plan)
    requires AllSettled(seen) && Grew(start, seen, plan, m) && (m <= LastBlob(plan) || m == |start|)
    ensures Bounded(start, seen, cfg.maxBlobSize)
  {
    hide PlanFile, AllSettled, Fresh, EstimatedSize, SizeOf, Touched, LastBlob, PlannedBytes, Grew, Bounded, WithinCapacity,
         FileChunks;
    PlannedWithin(plan, sizes, cfg, cursor, f, contents);
    if m == |start| {
      WrittenChargeFits(start, seen, plan);
    }
    SizesExact(v, start);
    GrewWithin(sizes, start, seen, cfg.maxBlobSize, plan, m);
  }

  lemma GrewWithin(sizes: seq<Result<u64>>, start: seq<Seen>, seen: seq<Seen>, max: u64, plan: seq<Assigned>, m: nat)
    requires Grew(start, seen, plan, m) && |sizes| == |start| && (m <= LastBlob(plan) || m == |start|)
    requires forall k :: 0 <= k < |start| ==> sizes[k] == Ok(SizeOf(start[k].history.records))
    requires forall k :: 0 <= k < |start| && Touched(plan, k) ==> sizes[k].value + PlannedBytes(plan, k) <= max
    requires m == |start| ==> WithinCapacity(sizes, max, plan)
    ensures Bounded(start, seen, max)
  {
    hide SizeOf, Touched, LastBlob, PlannedBytes, ChunksOn, Group;
  }

  /** A put that writes every group has the promised outcome. */
  lemma PutCompletes(hash: seq<byte> -> Hash, sizes: seq<Result<u64>>, v0: VaultIndex, start: seq<Seen>,
                     files0: map<FileId, StoredFile>, plan: seq<Assigned>, c: CompleteEntry, v: VaultIndex,
                     seen: seq<Seen>, f: FileId, contents: seq<byte>, cfg: VaultConfig, cursor: nat,
                     ent: nat -> Entropy, r: Result<()>)
    requires r.Ok? && Extent(start, plan, c, ent, |start|, r)
    requires Consistent(hash, v0, start, files0) && Writing(v0, start, plan, c, |start|, v, seen)
    requires PlannedFrom(sizes, v0, start, cfg, cursor, f, contents, plan) && |plan| < U64_LIMIT
    requires c == CompleteEntry(f, |plan|, hash(contents))
    ensures plan != [] && LastBlob(plan) < |start| && Placeable(ShelvesOf(start), plan) && cfg.maxChunkSize > 0
    ensures var files := files0[f := StoredAs(ShelvesOf(start), plan, FilePieces(contents, SliceSize(cfg)))];
      && Consistent(hash, v, seen, files)
      && PutOutcome(start, files0, v, seen, files, f, contents, plan, c, ent, cfg, r)
  {
    ConsistentParts(hash, v0, start, files0);
    PutBounds(sizes, v0, start, cfg, cursor, f, contents, plan);
    hide *;
    var pieces, shelves := FilePieces(contents, SliceSize(cfg)), ShelvesOf(start);
    PlanCovers(sizes, cfg, cursor, f, contents);
    PieceCount(contents, SliceSize(cfg));
    PlanFacts(plan, |start|, f, pieces);
    PutFinished(hash, v0, start, files0, plan, c, v, seen, f, pieces);
    PutGrew(v0, start, plan, c, |start|, v, seen);
    WritingSettles(v0, start, plan, c, |start|, v, seen);
    PutBounded(sizes, v0, start, cfg, cursor, f, contents, plan, seen, |start|);
    PutSucceeds(start, files0, v, seen, f, StoredAs(shelves, plan, pieces), plan, c, ent, cfg, r);
    StoredContents(shelves, plan, pieces);
  }

  lemma PutBounds(sizes: seq<Result<u64>>, v: VaultIndex, start: seq<Seen>, cfg: VaultConfig, cursor: nat, f: FileId,
                  contents: seq<byte>, plan: seq<Assigned>)
    requires PlannedFrom(sizes, v, start, cfg, cursor, f, contents, plan)
    ensures cfg.maxChunkSize > 0 && |contents| < U64_LIMIT && |sizes| == |start| && FileChunks(v, f) == []
    ensures PlanFile(sizes, cfg, cursor, f, contents) == Ok(plan)
    ensures 0 < |plan| < U64_LIMIT && forall i :: 0 <= i < |plan| ==> plan[i].blob < |sizes|
  {
    hide PlanFile, FilePieces, SliceSize, FileChunks, EstimatedSize;
    PlanCovers(sizes, cfg, cursor, f, contents);
    PieceCount(contents, SliceSize(cfg));
  }

  lemma ConsistentParts(hash: seq<byte> -> Hash, v: VaultIndex, seen: seq<Seen>, files: map<FileId, StoredFile>)
    requires Consistent(hash, v, seen, files)
    ensures AllSettled(seen) && Fresh(v, ShelvesOf(seen))
  {
  }

  lemma StoredContents(shelves: seq<Shelf>, plan: seq<Assigned>, pieces: seq<seq<byte>>)
    requires Placeable(shelves, plan) && plan != [] && LastBlob(plan) < |shelves|
    ensures StoredAs(shelves, plan, pieces).Contents() == Join(pieces)
  {
  }

  lemma PutSucceeds(start: seq<Seen>, files0: map<FileId, StoredFile>, v: VaultIndex, seen: seq<Seen>, f: FileId,
                    s: StoredFile, plan: seq<Assigned>, c: CompleteEntry, ent: nat -> Entropy, cfg: VaultConfig,
                    r: Result<()>)
    requires r.Ok? && Extent(start, plan, c, ent, |start|, r)
    requires f !in files0 && Grew(start, seen, plan, |start|) && Bounded(start, seen, cfg.maxBlobSize)
    requires Later(start, seen)
    ensures PutOutcome(start, files0, v, seen, files0[f := s], f, s.Contents(), plan, c, ent, cfg, r)
  {
    hide Grew, Bounded, Join, Later, Extent;
  }

  lemma PutFails(start: seq<Seen>, files0: map<FileId, StoredFile>, v: VaultIndex, seen: seq<Seen>, f: FileId,
                 contents: seq<byte>, plan: seq<Assigned>, c: CompleteEntry, ent: nat -> Entropy, m: nat,
                 cfg: VaultConfig, e: Error)
    requires m <= |start| && Extent(start, plan, c, ent, m, Err(e))
    requires (e == IntegerOverflow || e == InvalidChunkSize) && EnsureFileComplete(v, f).Err?
    requires Grew(start, seen, plan, m) && Bounded(start, seen, cfg.maxBlobSize) && Later(start, seen)
    ensures PutOutcome(start, files0, v, seen, files0, f, contents, plan, c, ent, cfg, Err(e))
  {
    hide Grew, Bounded, Later, Extent;
  }

  lemma WritingProgress(v0: VaultIndex, start: seq<Seen>, plan: seq<Assigned>, c: CompleteEntry, m: nat, v: VaultIndex,
                        seen: seq<Seen>)
    requires Writing(v0, start, plan, c, m, v, seen)
    ensures Progress(v0, ShelvesOf(start), plan, c, m, v, ShelvesOf(seen))
  {
  }

  lemma WritingSettles(v0: VaultIndex, start: seq<Seen>, plan: seq<Assigned>, c: CompleteEntry, m: nat, v: VaultIndex,
                       seen: seq<Seen>)
    requires Writing(v0, start, plan, c, m, v, seen)
    ensures AllSettled(start) && AllSettled(seen) && Later(start, seen) && |seen| == |start|
    ensures plan != [] && LastBlob(plan) < |start|
  {
    hide AllSettled, Fresh, LastBlob;
  }

  /** The files once a put has ended, finished or not. */
  lemma PutEnds(hash: seq<byte> -> Hash, sizes: seq<Result<u64>>, v0: VaultIndex, start: seq<Seen>,
                files0: map<FileId, StoredFile>, plan: seq<Assigned>, c: CompleteEntry, m: nat, v: VaultIndex,
                seen: seq<Seen>, f: FileId, contents: seq<byte>, cfg: VaultConfig, cursor: nat, ent: nat -> Entropy,
                r: Result<()>)
      returns (files: map<FileId, StoredFile>)
    requires Consistent(hash, v0, start, files0) && Writing(v0, start, plan, c, m, v, seen)
    requires m <= |start| && Extent(start, plan, c, ent, m, r) && (r.Ok? ==> m == |start|)
    requires r.Err? ==> plan != [] && m <= LastBlob(plan) && (r.error == IntegerOverflow || r.error == InvalidChunkSize)
    requires PlannedFrom(sizes, v0, start, cfg, cursor, f, contents, plan) && |plan| < U64_LIMIT
    requires c == CompleteEntry(f, |plan|, hash(contents))
    ensures Consistent(hash, v, seen, files)
    ensures PutOutcome(start, files0, v, seen, files, f, contents, plan, c, ent, cfg, r) && OthersListed(v0, v, f)
  {
    hide *;
    PutBounds(sizes, v0, start, cfg, cursor, f, contents, plan);
    var pieces := FilePieces(contents, SliceSize(cfg));
    PlanCovers(sizes, cfg, cursor, f, contents);
    PlanFacts(plan, |start|, f, pieces);
    WritingProgress(v0, start, plan, c, m, v, seen);
    PutOthers(v0, ShelvesOf(start), plan, c, m, v, ShelvesOf(seen), f);
    if r.Ok? {
      PutCompletes(hash, sizes, v0, start, files0, plan, c, v, seen, f, contents, cfg, cursor, ent,
                   r);
      files := files0[f := StoredAs(ShelvesOf(start), plan, pieces)];
    } else {
      PutStopped(hash, v0, start, files0, plan, c, m, v, seen, f);
      PutIncomplete(hash, v0, start, files0, plan, c, m, v, seen, f);
      PutGrew(v0, start, plan, c, m, v, seen);
      WritingSettles(v0, start, plan, c, m, v, seen);
      ConsistentParts(hash, v0, start, files0);
      PutBounded(sizes, v0, start, cfg, cursor, f, contents, plan, seen, m);
      PutFails(start, files0, v, seen, f, contents, plan, c, ent, m, cfg, r.error);
      files := files0;
    }
  }
}
