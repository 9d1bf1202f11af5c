/** What writing a planned file does to the files of the vault. */
module Filing {
  import opened Basics
  import opened IndexCodec
  import opened Crypto
  import opened Ledger
  import opened Transaction
  import opened Commits
  import opened Handles
  import opened Sorting
  import opened Cache
  import opened Planner
  import opened Placement
  import opened Estimates
  import opened Assembly
  import opened Storing

  /** Every chunk of the plan belongs to the file. */
  ghost predicate PlanOf(plan: seq<Assigned>, f: FileId) {
    forall i :: 0 <= i < |plan| ==> plan[i].chunk.fileId == f
  }

  // Adding to a merged list

  lemma FilterCount<T>(keep: T -> bool, xs: seq<T>, ys: seq<T>, added: multiset<T>, x: T)
    requires multiset(ys) == multiset(xs) + added
    ensures multiset(Filter(keep, ys))[x] == multiset(Filter(keep, xs))[x] + if keep(x) then added[x] else 0
  {
    FilterCounts(keep, xs, x);
    FilterCounts(keep, ys, x);
  }

  /** A filter that keeps everything added finds it besides what it found before. */
  lemma FilterAdded<T(!new)>(keep: T -> bool, xs: seq<T>, ys: seq<T>, added: multiset<T>)
    requires multiset(ys) == multiset(xs) + added && forall x :: x in added ==> keep(x)
    ensures multiset(Filter(keep, ys)) == multiset(Filter(keep, xs)) + added
  {
    var a, b := multiset(Filter(keep, xs)), multiset(Filter(keep, ys));
    hide Filter;
    forall x: T ensures b[x] == a[x] + added[x] {
      FilterCount(keep, xs, ys, added, x);
      if !keep(x) {
        assert x !in added;
      }
    }
    assert b == a + added;
  }

  /** A filter that keeps nothing added finds what it found before. */
  lemma FilterIgnores<T(!new)>(keep: T -> bool, xs: seq<T>, ys: seq<T>, added: multiset<T>)
    requires multiset(ys) == multiset(xs) + added && forall x :: x in added ==> !keep(x)
    ensures multiset(Filter(keep, ys)) == multiset(Filter(keep, xs))
  {
    var a, b := multiset(Filter(keep, xs)), multiset(Filter(keep, ys));
    hide Filter;
    forall x: T ensures b[x] == a[x] {
      FilterCount(keep, xs, ys, added, x);
      if keep(x) {
        assert x !in added;
      }
    }
    assert b == a;
  }

  lemma {:induction false} GroupOf(plan: seq<Assigned>, k: nat, f: FileId)
    requires PlanOf(plan, f)
    ensures forall i :: 0 <= i < |Group(plan, k)| ==> Group(plan, k)[i].fileId == f
  {
    if plan != [] {
      GroupOf(plan[..|plan| - 1], k, f);
    }
  }

  lemma {:induction false} RecordsOf(keys: Keys, tail: nat, chunks: seq<NewChunk>, f: FileId)
    requires tail + ChunkBytes(chunks) < U64_LIMIT && forall i :: 0 <= i < |chunks| ==> chunks[i].fileId == f
    ensures forall i :: 0 <= i < |chunks| ==>
      ChunkRecords(keys, tail, chunks)[i].ChunkRecord? && ChunkRecords(keys, tail, chunks)[i].chunk.fileId == f
  {
    if chunks != [] {
      RecordsOf(keys, tail, chunks[..|chunks| - 1], f);
    }
  }

  ghost predicate AllOf(xs: multiset<Located<ChunkEntry>>, f: FileId) {
    forall x :: x in xs ==> x.entry.fileId == f
  }

  lemma EntriesOf(shelf: Shelf, plan: seq<Assigned>, k: nat, f: FileId)
    requires PlanOf(plan, f) && GroupFits(shelf, plan, k)
    ensures AllOf(GroupEntries(shelf, plan, k), f)
  {
    GroupOf(plan, k, f);
    RecordsOf(shelf.keys, Tail(shelf.records), Group(plan, k), f);
    var rs := GroupChunks(shelf, plan, k);
    hide GroupFits;
    forall x | x in GroupEntries(shelf, plan, k) ensures x.entry.fileId == f {
      var tagged := Tagged(shelf.id, IndexOf(rs).chunks);
      var i :| 0 <= i < |tagged| && tagged[i] == x;
      var j := RecordOfChunk(rs, i);
    }
  }

  /** Only entries of the file are added. */
  lemma {:induction false} AddedOf(shelves: seq<Shelf>, plan: seq<Assigned>, m: nat, f: FileId)
    requires PlanOf(plan, f) && FitsUpTo(shelves, plan, m)
    ensures AllOf(AddedChunks(shelves, plan, m), f)
  {
    hide GroupFits, GroupEntries, AddedChunks, PlanOf, FitsUpTo, AllOf;
    if m == 0 {
      AddedNone(shelves, plan, f);
    } else {
      AddedNext(shelves, plan, m);
      AddedOf(shelves, plan, m - 1, f);
      EntriesOf(shelves[m - 1], plan, m - 1, f);
      BothOf(AddedChunks(shelves, plan, m - 1), GroupEntries(shelves[m - 1], plan, m - 1), f);
    }
  }

  lemma AddedNone(shelves: seq<Shelf>, plan: seq<Assigned>, f: FileId)
    ensures FitsUpTo(shelves, plan, 0) && AllOf(AddedChunks(shelves, plan, 0), f)
  {
  }

  lemma BothOf(a: multiset<Located<ChunkEntry>>, b: multiset<Located<ChunkEntry>>, f: FileId)
    requires AllOf(a, f) && AllOf(b, f)
    ensures AllOf(a + b, f)
  {
  }

  lemma AddedKept(shelves: seq<Shelf>, plan: seq<Assigned>, m: nat, f: FileId)
    requires PlanOf(plan, f) && FitsUpTo(shelves, plan, m)
    ensures forall x :: x in AddedChunks(shelves, plan, m) ==> OfFile(f)(x)
  {
    AddedOf(shelves, plan, m, f);
  }

  lemma {:induction false} TouchedGroup(plan: seq<Assigned>, k: nat)
    requires Touched(plan, k)
    ensures Group(plan, k) != []
  {
    var before := plan[..|plan| - 1];
    if plan[|plan| - 1].blob != k {
      var i :| 0 <= i < |plan| && plan[i].blob == k;
      assert before[i].blob == k;
      TouchedGroup(before, k);
    }
  }

  lemma {:induction false} AddedSome(shelves: seq<Shelf>, plan: seq<Assigned>, m: nat, k: nat)
    requires k < m && FitsUpTo(shelves, plan, m) && Touched(plan, k)
    ensures AddedChunks(shelves, plan, m) != multiset{}
  {
    hide GroupFits, Touched, GroupEntries, AddedChunks;
    AddedNext(shelves, plan, m);
    if k < m - 1 {
      AddedSome(shelves, plan, m - 1, k);
    } else {
      SomeEntries(shelves[k], plan, k);
    }
    hide *;
    MoreIsSome(AddedChunks(shelves, plan, m - 1), GroupEntries(shelves[m - 1], plan, m - 1));
  }

  lemma MoreIsSome<T>(a: multiset<T>, b: multiset<T>)
    requires a != multiset{} || b != multiset{}
    ensures a + b != multiset{}
  {
    assert |a + b| == |a| + |b|;
  }

  lemma SomeEntries(shelf: Shelf, plan: seq<Assigned>, k: nat)
    requires GroupFits(shelf, plan, k) && Touched(plan, k)
    ensures GroupEntries(shelf, plan, k) != multiset{}
  {
    TouchedGroup(plan, k);
    var rs := GroupChunks(shelf, plan, k);
    ChunkRecordsKind(shelf.keys, Tail(shelf.records), Group(plan, k));
    forall i | 0 <= i < |Entries(rs)| ensures Entries(rs)[i].Chunk? {
      assert rs[i] in rs;
    }
    CollectAll(Entries(rs));
    var tagged := Tagged(shelf.id, IndexOf(rs).chunks);
    assert tagged[0] in multiset(tagged);
  }

  // Files

  /** Files with a completion have chunks. */
  ghost predicate Backed(v: VaultIndex) {
    forall f: FileId :: FileChunks(v, f) == [] ==> FileCompletes(v, f) == []
  }

  lemma OfNothing<T>(xs: seq<T>)
    ensures multiset(xs) == multiset{} <==> xs == []
  {
    if xs != [] {
      assert xs[0] in multiset(xs);
    }
  }

  /** The chunks and completions of another file are not affected, in whatever state the write stops. */
  lemma OtherFile(v0: VaultIndex, shelves: seq<Shelf>, plan: seq<Assigned>, c: CompleteEntry, m: nat,
                  v: VaultIndex, now: seq<Shelf>, f: FileId, g: FileId)
    requires Progress(v0, shelves, plan, c, m, v, now) && PlanOf(plan, f) && c.fileId == f && g != f
    ensures multiset(FileChunks(v, g)) == multiset(FileChunks(v0, g))
    ensures multiset(FileCompletes(v, g)) == multiset(FileCompletes(v0, g))
  {
    AddedOf(shelves, plan, m, f);
    hide Fresh, Filter, AddedChunks, LastBlob, FitsUpTo, ShelvedUpTo;
    FilterIgnores(OfFile(g), v0.chunks, v.chunks, AddedChunks(shelves, plan, m));
    FilterIgnores(CompletesFile(g), v0.completed, v.completed, AddedCompletes(shelves, plan, c, m));
  }

  /** The same chunks and completions are listed of every other file. */
  ghost predicate OthersListed(v0: VaultIndex, v: VaultIndex, f: FileId) {
    forall g: FileId :: g != f ==>
      && multiset(FileChunks(v, g)) == multiset(FileChunks(v0, g))
      && multiset(FileCompletes(v, g)) == multiset(FileCompletes(v0, g))
  }

  lemma PutOthers(v0: VaultIndex, shelves: seq<Shelf>, plan: seq<Assigned>, c: CompleteEntry, m: nat,
                  v: VaultIndex, now: seq<Shelf>, f: FileId)
    requires Progress(v0, shelves, plan, c, m, v, now) && PlanOf(plan, f) && c.fileId == f
    ensures OthersListed(v0, v, f)
  {
    hide Progress, FileChunks, FileCompletes, PlanOf;
    forall g: FileId | g != f
      ensures multiset(FileChunks(v, g)) == multiset(FileChunks(v0, g))
      ensures multiset(FileCompletes(v, g)) == multiset(FileCompletes(v0, g))
    {
      OtherFile(v0, shelves, plan, c, m, v, now, f, g);
    }
  }

  lemma ShelvedExtends(shelves: seq<Shelf>, plan: seq<Assigned>, c: CompleteEntry, m: nat)
    requires plan != [] && FitsUpTo(shelves, plan, m)
    ensures Extends(shelves, ShelvedUpTo(shelves, plan, c, m))
  {
    hide GroupRecords, GroupFits;
  }

  /** Files stored before a put are stored as before, whether the put completes or stops half-way. */
  lemma PutKeeps(hash: seq<byte> -> Hash, v0: VaultIndex, shelves: seq<Shelf>, plan: seq<Assigned>, c: CompleteEntry,
                 m: nat, v: VaultIndex, now: seq<Shelf>, f: FileId, g: FileId, s: StoredFile)
    requires Progress(v0, shelves, plan, c, m, v, now) && PlanOf(plan, f) && c.fileId == f && g != f
    requires Holds(hash, v0, shelves, g, s)
    ensures Holds(hash, v, now, g, s)
  {
    OtherFile(v0, shelves, plan, c, m, v, now, f, g);
    hide FileChunks, FileCompletes, Fresh, ChunksHold, FitsUpTo, PlanOf, Join, ShelvedUpTo, AddedChunks, AddedCompletes;
    ShelvedExtends(shelves, plan, c, m);
    ChunksHoldLater(shelves, now, g, s);
  }

  lemma PutBacked(v0: VaultIndex, shelves: seq<Shelf>, plan: seq<Assigned>, c: CompleteEntry, m: nat,
                  v: VaultIndex, now: seq<Shelf>, f: FileId)
    requires Progress(v0, shelves, plan, c, m, v, now) && PlanOf(plan, f) && c.fileId == f && Backed(v0)
    ensures Backed(v)
  {
    AddedOf(shelves, plan, m, f);
    LastBlobIsLast(plan);
    if m > LastBlob(plan) {
      AddedSome(shelves, plan, m, LastBlob(plan));
    }
    var added := AddedChunks(shelves, plan, m);
    hide Fresh, Filter, AddedChunks, LastBlob, FitsUpTo, ShelvedUpTo, Touched;
    forall g: FileId | FileChunks(v, g) == [] ensures FileCompletes(v, g) == [] {
      OfNothing(FileChunks(v, g));
      OfNothing(FileChunks(v0, g));
      OfNothing(FileCompletes(v, g));
      OfNothing(FileCompletes(v0, g));
      if g != f {
        OtherFile(v0, shelves, plan, c, m, v, now, f, g);
      } else {
        FilterAdded(OfFile(f), v0.chunks, v.chunks, added);
        assert added == multiset{};
        FilterAdded(CompletesFile(f), v0.completed, v.completed, AddedCompletes(shelves, plan, c, m));
      }
    }
  }

  lemma GroupedResolves(shelves: seq<Shelf>, plan: seq<Assigned>, c: CompleteEntry, k: nat,
                        x: Located<ChunkEntry>, plaintext: seq<byte>)
    requires plan != [] && FitsUpTo(shelves, plan, |shelves|) && k < |shelves|
    requires Grouped(shelves[k], plan, k, x, plaintext)
    ensures Resolves(ShelvedUpTo(shelves, plan, c, |shelves|), x, plaintext)
  {
    hide GroupChunks, GroupFits;
    var j :| 0 <= j < |GroupChunks(shelves[k], plan, k)|
             && GroupChunks(shelves[k], plan, k)[j] == ChunkRecord(x.entry, plaintext);
    var now := ShelvedUpTo(shelves, plan, c, |shelves|);
    assert now[k].records[|shelves[k].records| + j] == ChunkRecord(x.entry, plaintext);
  }

  /** How a planned file is stored once all its groups are written. */
  ghost function StoredAs(shelves: seq<Shelf>, plan: seq<Assigned>, pieces: seq<seq<byte>>): StoredFile
    requires Placeable(shelves, plan) && plan != [] && LastBlob(plan) < |shelves|
  {
    StoredFile(PlannedChunks(shelves, plan), pieces, shelves[LastBlob(plan)].id)
  }

  lemma LastBlobBelow(plan: seq<Assigned>, n: nat)
    requires plan != [] && forall i :: 0 <= i < |plan| ==> plan[i].blob < n
    ensures LastBlob(plan) < n
  {
    LastBlobIsLast(plan);
  }

  lemma PlannedHold(shelves: seq<Shelf>, plan: seq<Assigned>, c: CompleteEntry, f: FileId, pieces: seq<seq<byte>>)
    requires Placeable(shelves, plan) && plan != [] && LastBlob(plan) < |shelves|
    requires Covers(plan, |shelves|, f, pieces) && |pieces| < U64_LIMIT
    ensures ChunksHold(ShelvedUpTo(shelves, plan, c, |shelves|), f, StoredAs(shelves, plan, pieces))
  {
    hide FitsUpTo, PlannedChunks, Grouped, Resolves, ShelvedUpTo, LastBlob;
    var s, now := StoredAs(shelves, plan, pieces), ShelvedUpTo(shelves, plan, c, |shelves|);
    forall i | 0 <= i < |s.chunks|
      ensures s.chunks[i].entry.fileId == f && s.chunks[i].entry.sequenceNumber == i
      ensures s.chunks[i].entry.plaintextLength == |s.pieces[i]| && Resolves(now, s.chunks[i], s.pieces[i])
    {
      PlannedGrouped(shelves, plan, i);
      GroupedResolves(shelves, plan, c, plan[i].blob, s.chunks[i], s.pieces[i]);
    }
  }

  lemma ListedChunks(v0: VaultIndex, v: VaultIndex, f: FileId, added: multiset<Located<ChunkEntry>>)
    requires multiset(v.chunks) == multiset(v0.chunks) + added && FileChunks(v0, f) == []
    requires forall x :: x in added ==> OfFile(f)(x)
    ensures multiset(FileChunks(v, f)) == added
  {
    AddedToNothing(OfFile(f), v0.chunks, v.chunks, added);
  }

  lemma ListedCompletes(v0: VaultIndex, v: VaultIndex, f: FileId, b: BlobId, c: CompleteEntry)
    requires multiset(v.completed) == multiset(v0.completed) + multiset{Located(b, c)} && FileCompletes(v0, f) == []
    requires c.fileId == f
    ensures multiset(FileCompletes(v, f)) == multiset{Located(b, c)}
  {
    CompleteOf(f, b, c);
    AddedToNothing(CompletesFile(f), v0.completed, v.completed, multiset{Located(b, c)});
  }

  lemma PlannedListed(hash: seq<byte> -> Hash, v0: VaultIndex, shelves: seq<Shelf>, plan: seq<Assigned>,
                      c: CompleteEntry, v: VaultIndex, now: seq<Shelf>, f: FileId, pieces: seq<seq<byte>>)
    requires Progress(v0, shelves, plan, c, |shelves|, v, now) && Placeable(shelves, plan) && PlanOf(plan, f)
    requires LastBlob(plan) < |shelves| && |plan| == |pieces| < U64_LIMIT
    requires FileChunks(v0, f) == [] && FileCompletes(v0, f) == []
    requires c == CompleteEntry(f, |plan|, hash(Join(pieces)))
    ensures Listed(hash, v, f, StoredAs(shelves, plan, pieces))
  {
    hide Fresh, FileChunks, FileCompletes, AddedChunks, PlannedChunks, LastBlob, FitsUpTo, ShelvedUpTo, Placeable, Join,
         PlanOf, OfFile;
    AddedKept(shelves, plan, |shelves|, f);
    AddedIsPlanned(shelves, plan);
    ListedChunks(v0, v, f, AddedChunks(shelves, plan, |shelves|));
    ListedCompletes(v0, v, f, shelves[LastBlob(plan)].id, c);
  }

  lemma CompleteOf(f: FileId, b: BlobId, c: CompleteEntry)
    requires c.fileId == f
    ensures CompletesFile(f)(Located(b, c))
  {
  }

  lemma AddedToNothing<T(!new)>(keep: T -> bool, xs: seq<T>, ys: seq<T>, added: multiset<T>)
    requires multiset(ys) == multiset(xs) + added && Filter(keep, xs) == []
    requires forall x :: x in added ==> keep(x)
    ensures multiset(Filter(keep, ys)) == added
  {
    FilterAdded(keep, xs, ys, added);
  }

  /** Once every group is written, the vault holds the file. */
  lemma PutHolds(hash: seq<byte> -> Hash, v0: VaultIndex, shelves: seq<Shelf>, plan: seq<Assigned>, c: CompleteEntry,
                 v: VaultIndex, now: seq<Shelf>, f: FileId, pieces: seq<seq<byte>>)
    requires Progress(v0, shelves, plan, c, |shelves|, v, now)
    requires Covers(plan, |shelves|, f, pieces) && |pieces| < U64_LIMIT && |Join(pieces)| < U64_LIMIT
    requires FileChunks(v0, f) == [] && FileCompletes(v0, f) == []
    requires c == CompleteEntry(f, |plan|, hash(Join(pieces)))
    ensures Placeable(shelves, plan) && LastBlob(plan) < |shelves|
    ensures Holds(hash, v, now, f, StoredAs(shelves, plan, pieces))
  {
    hide FitsUpTo, Fresh, FileChunks, FileCompletes, AddedChunks, ShelvedUpTo, Join, LastBlob;
    LastBlobBelow(plan, |shelves|);
    PlannedHold(shelves, plan, c, f, pieces);
    PlannedListed(hash, v0, shelves, plan, c, v, now, f, pieces);
  }

  /** A group raises its blob's size by exactly what the plan charges. */
  lemma GroupSize(shelf: Shelf, plan: seq<Assigned>, c: CompleteEntry, k: nat)
    requires plan != [] && GroupFits(shelf, plan, k) && Placed(shelf.keys, shelf.records)
    ensures SizeOf(shelf.records + GroupRecords(shelf, plan, c, k)) == SizeOf(shelf.records) + Charged(plan, k)
  {
    var group, completions := Group(plan, k), Completions(plan, c, k);
    var a, b := GroupChunks(shelf, plan, k), CompleteRecords(completions);
    GroupBytes(plan, k);
    PlanPlaced(shelf.keys, shelf.records, group);
    CompletesPlaced(shelf.keys, shelf.records + a, completions);
    ChunkRecordsPlain(shelf.keys, Tail(shelf.records), group);
    CompleteRecordsPlain(completions);
    hide Placed, ChunkBytes, ChunkRecords, CompleteRecords, Tail, Plain, PlannedBytes, Group, LastBlob, IndexOf;
    PlainOfThree(shelf.records, a, b);
  }

  lemma PlainOfThree(rs: seq<Record>, a: seq<Record>, b: seq<Record>)
    ensures rs + (a + b) == rs + a + b && |Plain(rs + (a + b))| == |Plain(rs)| + |Plain(a)| + |Plain(b)|
  {
    EntriesAppend(a, b);
    EntriesAppend(rs, a + b);
  }

  lemma PlanFacts(plan: seq<Assigned>, n: nat, f: FileId, pieces: seq<seq<byte>>)
    requires plan != [] && Covers(plan, n, f, pieces)
    ensures plan != [] && |plan| == |pieces| && PlanOf(plan, f) && LastBlob(plan) < n
    ensures forall i :: 0 <= i < |plan| ==> plan[i].blob < n
  {
    LastBlobBelow(plan, n);
  }

  /** None of the records are of the files. */
  ghost predicate NoneOf(rs: seq<Record>, files: set<FileId>) {
    forall i :: 0 <= i < |rs| ==>
      && (rs[i].ChunkRecord? ==> rs[i].chunk.fileId !in files)
      && (rs[i].CompleteRecord? ==> rs[i].complete.fileId !in files)
  }

  /** Bringing a view up to date in one blob keeps a stored file, if what the blob has gained is not of it. */
  lemma CatchUpHolds(hash: seq<byte> -> Hash, v: VaultIndex, past: seq<Shelf>, now: seq<Shelf>, k: nat, f: FileId,
                     s: StoredFile)
    requires Fresh(v, past) && Extends(past, now) && k < |past| && NoneOf(Gained(past, now, k), {f})
    requires Holds(hash, v, now, f, s)
    ensures Holds(hash, Replace(v, now[k].id, IndexOf(now[k].records)), now, f, s)
  {
    var w, rs := Replace(v, now[k].id, IndexOf(now[k].records)), Gained(past, now, k);
    LoadCatchesUp(v, past, now, k);
    forall x | x in Tagged(now[k].id, IndexOf(rs).chunks) ensures !OfFile(f)(x) {
      var i :| 0 <= i < |IndexOf(rs).chunks| && x.entry == IndexOf(rs).chunks[i];
      var j := RecordOfChunk(rs, i);
    }
    forall x | x in Tagged(now[k].id, IndexOf(rs).completed) ensures !CompletesFile(f)(x) {
      var i :| 0 <= i < |IndexOf(rs).completed| && x.entry == IndexOf(rs).completed[i];
      var j := RecordOfComplete(rs, i);
    }
    FilterIgnores(OfFile(f), v.chunks, w.chunks, multiset(Tagged(now[k].id, IndexOf(rs).chunks)));
    FilterIgnores(CompletesFile(f), v.completed, w.completed, multiset(Tagged(now[k].id, IndexOf(rs).completed)));
  }

  /** The same entries in another order hold the same files. */
  lemma SameEntries(hash: seq<byte> -> Hash, v: VaultIndex, w: VaultIndex, shelves: seq<Shelf>)
    requires multiset(v.chunks) == multiset(w.chunks) && multiset(v.completed) == multiset(w.completed)
    ensures forall f, s :: Holds(hash, v, shelves, f, s) ==> Holds(hash, w, shelves, f, s)
    ensures Backed(v) ==> Backed(w)
  {
    forall f: FileId
      ensures multiset(FileChunks(v, f)) == multiset(FileChunks(w, f))
      ensures multiset(FileCompletes(v, f)) == multiset(FileCompletes(w, f))
    {
      FilterIgnores(OfFile(f), v.chunks, w.chunks, multiset{});
      FilterIgnores(CompletesFile(f), v.completed, w.completed, multiset{});
    }
    hide FileChunks, FileCompletes, ChunksHold, Join;
    if Backed(v) {
      forall f: FileId | FileChunks(w, f) == [] ensures FileCompletes(w, f) == [] {
        OfNothing(FileChunks(v, f));
        OfNothing(FileChunks(w, f));
        OfNothing(FileCompletes(v, f));
        OfNothing(FileCompletes(w, f));
      }
    }
  }
}
