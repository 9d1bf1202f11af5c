/** How the blobs and the merged index change while a planned file is written blob by blob. */
module Storing {
  import opened Basics
  import opened IndexCodec
  import opened Ledger
  import opened Transaction
  import opened Commits
  import opened Handles
  import opened Cache
  import opened Planner
  import opened Placement

  /** The completions written to blob `k`. */
  function Completions(plan: seq<Assigned>, c: CompleteEntry, k: nat): seq<CompleteEntry>
    requires plan != []
  {
    if k == LastBlob(plan) then [c] else []
  }

  ghost predicate GroupFits(shelf: Shelf, plan: seq<Assigned>, k: nat) {
    Tail(shelf.records) + ChunkBytes(Group(plan, k)) < U64_LIMIT
  }

  ghost function GroupChunks(shelf: Shelf, plan: seq<Assigned>, k: nat): seq<Record>
    requires GroupFits(shelf, plan, k)
  {
    ChunkRecords(shelf.keys, Tail(shelf.records), Group(plan, k))
  }

  /** The records the plan adds to blob `k`. */
  ghost function GroupRecords(shelf: Shelf, plan: seq<Assigned>, c: CompleteEntry, k: nat): seq<Record>
    requires plan != [] && GroupFits(shelf, plan, k)
  {
    GroupChunks(shelf, plan, k) + CompleteRecords(Completions(plan, c, k))
  }

  ghost predicate FitsUpTo(shelves: seq<Shelf>, plan: seq<Assigned>, m: nat) {
    m <= |shelves| && forall k :: 0 <= k < m ==> GroupFits(shelves[k], plan, k)
  }

  /** The blobs once the groups of the first `m` are written. */
  ghost function ShelvedUpTo(shelves: seq<Shelf>, plan: seq<Assigned>, c: CompleteEntry, m: nat): (after: seq<Shelf>)
    requires plan != [] && FitsUpTo(shelves, plan, m)
    ensures |after| == |shelves|
  {
    seq(|shelves|, k requires 0 <= k < |shelves| =>
      if k < m then shelves[k].(records := shelves[k].records + GroupRecords(shelves[k], plan, c, k)) else shelves[k])
  }

  /** The entries of one group's chunks in the merged index. */
  ghost function GroupEntries(shelf: Shelf, plan: seq<Assigned>, k: nat): multiset<Located<ChunkEntry>>
    requires GroupFits(shelf, plan, k)
  {
    multiset(Tagged(shelf.id, IndexOf(GroupChunks(shelf, plan, k)).chunks))
  }

  /** The chunk entries the first `m` groups add to the merged index. */
  ghost function AddedChunks(shelves: seq<Shelf>, plan: seq<Assigned>, m: nat): multiset<Located<ChunkEntry>>
    requires FitsUpTo(shelves, plan, m)
  {
    if m == 0 then multiset{}
    else AddedChunks(shelves, plan, m - 1) + GroupEntries(shelves[m - 1], plan, m - 1)
  }

  ghost function AddedCompletes(shelves: seq<Shelf>, plan: seq<Assigned>, c: CompleteEntry, m: nat)
      : multiset<Located<CompleteEntry>>
    requires plan != [] && m <= |shelves|
  {
    if m > LastBlob(plan) then multiset{Located(shelves[LastBlob(plan)].id, c)} else multiset{}
  }

  /** What holds after the groups of the first `m` blobs have been written and loaded. */
  ghost predicate Progress(v0: VaultIndex, shelves: seq<Shelf>, plan: seq<Assigned>, c: CompleteEntry, m: nat,
                           v: VaultIndex, now: seq<Shelf>)
  {
    && plan != [] && FitsUpTo(shelves, plan, m)
    && now == ShelvedUpTo(shelves, plan, c, m) && Fresh(v, now)
    && multiset(v.chunks) == multiset(v0.chunks) + AddedChunks(shelves, plan, m)
    && multiset(v.completed) == multiset(v0.completed) + AddedCompletes(shelves, plan, c, m)
  }

  lemma ProgressStart(v0: VaultIndex, shelves: seq<Shelf>, plan: seq<Assigned>, c: CompleteEntry)
    requires plan != [] && Fresh(v0, shelves)
    ensures Progress(v0, shelves, plan, c, 0, v0, shelves)
  {
    assert ShelvedUpTo(shelves, plan, c, 0) == shelves;
  }

  lemma IndexOfGroup(shelf: Shelf, plan: seq<Assigned>, c: CompleteEntry, k: nat)
    requires plan != [] && GroupFits(shelf, plan, k)
    ensures IndexOf(GroupRecords(shelf, plan, c, k))
         == BlobIndex(IndexOf(GroupChunks(shelf, plan, k)).chunks, Completions(plan, c, k))
  {
    var a, b := GroupChunks(shelf, plan, k), CompleteRecords(Completions(plan, c, k));
    ChunkRecordsKind(shelf.keys, Tail(shelf.records), Group(plan, k));
    EntriesAppend(a, b);
    CollectCompletes(Completions(plan, c, k));
    forall i | 0 <= i < |Entries(a)| ensures Entries(a)[i].Chunk? {
      assert a[i] in a;
    }
    CollectAll(Entries(a));
  }

  lemma ShelvedNext(shelves: seq<Shelf>, plan: seq<Assigned>, c: CompleteEntry, m: nat)
    requires plan != [] && FitsUpTo(shelves, plan, m + 1)
    ensures var now := ShelvedUpTo(shelves, plan, c, m);
      && now[m] == shelves[m]
      && ShelvedUpTo(shelves, plan, c, m + 1) == Shelve(now, m, GroupRecords(shelves[m], plan, c, m))
  {
    hide GroupRecords;
  }

  /** Writing the next group and loading its blob's index is a step of the run. */
  lemma ProgressStep(v0: VaultIndex, shelves: seq<Shelf>, plan: seq<Assigned>, c: CompleteEntry, m: nat,
                     v: VaultIndex, now: seq<Shelf>)
    requires Progress(v0, shelves, plan, c, m, v, now) && FitsUpTo(shelves, plan, m + 1)
    requires LastBlob(plan) < |shelves|
    ensures var rs := GroupRecords(shelves[m], plan, c, m);
      && m < |now| && now[m] == shelves[m]
      && Progress(v0, shelves, plan, c, m + 1, Replace(v, now[m].id, IndexOf(now[m].records + rs)), Shelve(now, m, rs))
  {
    hide Fresh, IndexOf, GroupRecords, GroupChunks, Replace, Tagged, LastBlob, ShelvedUpTo, AddedCompletes, GroupFits, Group,
         Tail, ChunkBytes;
    var rs := GroupRecords(shelves[m], plan, c, m);
    ShelvedNext(shelves, plan, c, m);
    CommitKeepsFresh(v, now, m, rs);
    IndexOfGroup(shelves[m], plan, c, m);
    CompletionStep(shelves, plan, c, m);
  }

  lemma CompletionStep(shelves: seq<Shelf>, plan: seq<Assigned>, c: CompleteEntry, m: nat)
    requires plan != [] && m < |shelves| && LastBlob(plan) < |shelves|
    ensures AddedCompletes(shelves, plan, c, m + 1)
         == AddedCompletes(shelves, plan, c, m) + multiset(Tagged(shelves[m].id, Completions(plan, c, m)))
  {
    hide LastBlob;
    if m == LastBlob(plan) {
      assert Tagged(shelves[m].id, [c]) == [Located(shelves[m].id, c)];
    } else {
      var none: seq<CompleteEntry> := [];
      assert Tagged(shelves[m].id, none) == [];
    }
  }

  lemma NothingForUntouched(shelf: Shelf, plan: seq<Assigned>, c: CompleteEntry, k: nat)
    requires plan != [] && !Touched(plan, k) && Tail(shelf.records) < U64_LIMIT
    ensures GroupFits(shelf, plan, k) && GroupChunks(shelf, plan, k) == [] && GroupRecords(shelf, plan, c, k) == []
    ensures k != LastBlob(plan)
  {
    Untouched(plan, k);
    LastBlobIsLast(plan);
  }

  lemma ShelvedSkip(shelves: seq<Shelf>, plan: seq<Assigned>, c: CompleteEntry, m: nat)
    requires plan != [] && FitsUpTo(shelves, plan, m + 1) && GroupRecords(shelves[m], plan, c, m) == []
    ensures ShelvedUpTo(shelves, plan, c, m + 1) == ShelvedUpTo(shelves, plan, c, m)
  {
    hide GroupRecords;
    assert shelves[m].records + [] == shelves[m].records;
  }

  /** A blob the plan does not touch is passed over. */
  lemma ProgressSkip(v0: VaultIndex, shelves: seq<Shelf>, plan: seq<Assigned>, c: CompleteEntry, m: nat,
                     v: VaultIndex, now: seq<Shelf>)
    requires Progress(v0, shelves, plan, c, m, v, now) && m < |shelves| && !Touched(plan, m)
    requires Tail(shelves[m].records) < U64_LIMIT
    ensures Progress(v0, shelves, plan, c, m + 1, v, now)
  {
    hide Fresh, Touched, LastBlob, IndexOf, GroupRecords, GroupChunks, ShelvedUpTo, GroupFits, Tagged;
    NothingForUntouched(shelves[m], plan, c, m);
    ShelvedSkip(shelves, plan, c, m);
    NothingIndexed(shelves[m].id);
  }

  lemma NothingIndexed(b: BlobId)
    ensures Tagged(b, IndexOf([]).chunks) == []
  {
  }

  // The chunks of the whole plan

  /** The entry that the last chunk of a plan gets in the merged index. */
  ghost function PlacedChunk(shelves: seq<Shelf>, plan: seq<Assigned>): Located<ChunkEntry>
    requires plan != [] && plan[|plan| - 1].blob < |shelves|
    requires GroupFits(shelves[plan[|plan| - 1].blob], plan[..|plan| - 1], plan[|plan| - 1].blob)
    requires |plan[|plan| - 1].chunk.plaintext| < U64_LIMIT
  {
    var a := plan[|plan| - 1];
    var shelf := shelves[a.blob];
    Located(shelf.id, NewChunkRecord(shelf.keys, Tail(shelf.records) + ChunkBytes(Group(plan[..|plan| - 1], a.blob)),
                                     a.chunk).chunk)
  }

  lemma GroupSnoc(shelf: Shelf, plan: seq<Assigned>, k: nat)
    requires plan != [] && GroupFits(shelf, plan, k)
    ensures var a, before := plan[|plan| - 1], plan[..|plan| - 1];
      && GroupFits(shelf, before, k)
      && (a.blob == k ==> |a.chunk.plaintext| < U64_LIMIT)
      && GroupChunks(shelf, plan, k) == GroupChunks(shelf, before, k) +
           if a.blob == k then
             [NewChunkRecord(shelf.keys, Tail(shelf.records) + ChunkBytes(Group(before, k)), a.chunk)]
           else []
  {
    var a, before := plan[|plan| - 1], plan[..|plan| - 1];
    if a.blob == k {
      var g := Group(plan, k);
      assert g == Group(before, k) + [a.chunk];
      assert g[..|g| - 1] == Group(before, k) && g[..|g|] == g;
      ChunkStep(shelf.keys, Tail(shelf.records), g, |g| - 1);
    } else {
      assert Group(plan, k) == Group(before, k);
    }
  }

  lemma {:induction false} FitsPrefix(shelves: seq<Shelf>, plan: seq<Assigned>, m: nat)
    requires plan != [] && FitsUpTo(shelves, plan, m)
    ensures FitsUpTo(shelves, plan[..|plan| - 1], m)
    ensures plan[|plan| - 1].blob < m ==> |plan[|plan| - 1].chunk.plaintext| < U64_LIMIT
  {
    forall k | 0 <= k < m
      ensures GroupFits(shelves[k], plan[..|plan| - 1], k)
      ensures plan[|plan| - 1].blob == k ==> |plan[|plan| - 1].chunk.plaintext| < U64_LIMIT
    {
      GroupSnoc(shelves[k], plan, k);
    }
    if plan[|plan| - 1].blob < m {
      GroupSnoc(shelves[plan[|plan| - 1].blob], plan, plan[|plan| - 1].blob);
    }
  }

  lemma TaggedGroup(b: BlobId, rs: seq<Record>, r: Record)
    requires r.ChunkRecord?
    ensures multiset(Tagged(b, IndexOf(rs + [r]).chunks))
         == multiset(Tagged(b, IndexOf(rs).chunks)) + multiset{Located(b, r.chunk)}
  {
    IndexSnoc(rs, r);
    hide IndexOf;
    TaggedAppend(b, IndexOf(rs).chunks, [r.chunk]);
    assert Tagged(b, [r.chunk]) == [Located(b, r.chunk)];
  }

  lemma EntriesSnoc(shelf: Shelf, plan: seq<Assigned>, k: nat)
    requires plan != [] && GroupFits(shelf, plan, k)
    ensures var a, before := plan[|plan| - 1], plan[..|plan| - 1];
      && GroupFits(shelf, before, k)
      && (a.blob == k ==> |a.chunk.plaintext| < U64_LIMIT)
      && GroupEntries(shelf, plan, k) ==
           if a.blob == k then
             GroupEntries(shelf, before, k)
             + multiset{Located(shelf.id, NewChunkRecord(shelf.keys, Tail(shelf.records) + ChunkBytes(Group(before, k)),
                                                         a.chunk).chunk)}
           else GroupEntries(shelf, before, k)
  {
    var a, before := plan[|plan| - 1], plan[..|plan| - 1];
    GroupSnoc(shelf, plan, k);
    hide GroupChunks, Group, Tagged, IndexOf, Tail, ChunkBytes;
    if a.blob == k {
      var r := NewChunkRecord(shelf.keys, Tail(shelf.records) + ChunkBytes(Group(before, k)), a.chunk);
      TaggedGroup(shelf.id, GroupChunks(shelf, before, k), r);
    } else {
      assert GroupChunks(shelf, plan, k) == GroupChunks(shelf, before, k);
    }
  }

  lemma EntriesPlaced(shelves: seq<Shelf>, plan: seq<Assigned>, k: nat)
    requires plan != [] && k < |shelves| && GroupFits(shelves[k], plan, k)
    ensures GroupFits(shelves[k], plan[..|plan| - 1], k)
    ensures plan[|plan| - 1].blob == k ==> |plan[|plan| - 1].chunk.plaintext| < U64_LIMIT
    ensures GroupEntries(shelves[k], plan, k) ==
              if plan[|plan| - 1].blob == k then
                GroupEntries(shelves[k], plan[..|plan| - 1], k) + multiset{PlacedChunk(shelves, plan)}
              else GroupEntries(shelves[k], plan[..|plan| - 1], k)
  {
    hide *;
    EntriesSnoc(shelves[k], plan, k);
    if plan[|plan| - 1].blob == k {
      PlacedIs(shelves, plan);
    }
  }

  lemma PlacedIs(shelves: seq<Shelf>, plan: seq<Assigned>)
    requires plan != [] && plan[|plan| - 1].blob < |shelves|
    requires GroupFits(shelves[plan[|plan| - 1].blob], plan[..|plan| - 1], plan[|plan| - 1].blob)
    requires |plan[|plan| - 1].chunk.plaintext| < U64_LIMIT
    ensures var a, before := plan[|plan| - 1], plan[..|plan| - 1];
      var shelf := shelves[a.blob];
      PlacedChunk(shelves, plan)
        == Located(shelf.id, NewChunkRecord(shelf.keys, Tail(shelf.records) + ChunkBytes(Group(before, a.blob)),
                                            a.chunk).chunk)
  {
  }

  /** A longer plan adds one more entry, on the blob of its last chunk. */
  lemma {:induction false} AddedSnoc(shelves: seq<Shelf>, plan: seq<Assigned>, m: nat)
    requires plan != [] && FitsUpTo(shelves, plan, m)
    ensures FitsUpTo(shelves, plan[..|plan| - 1], m)
    ensures plan[|plan| - 1].blob < m ==> |plan[|plan| - 1].chunk.plaintext| < U64_LIMIT
    ensures AddedChunks(shelves, plan, m) ==
              if plan[|plan| - 1].blob < m then
                AddedChunks(shelves, plan[..|plan| - 1], m) + multiset{PlacedChunk(shelves, plan)}
              else AddedChunks(shelves, plan[..|plan| - 1], m)
  {
    hide GroupFits, Group, Tail, ChunkBytes, GroupEntries;
    FitsPrefix(shelves, plan, m);
    var before, at := plan[..|plan| - 1], plan[|plan| - 1].blob;
    if m > 0 {
      AddedNext(shelves, plan, m);
      AddedNext(shelves, before, m);
      hide *;
      AddedSnoc(shelves, plan, m - 1);
      EntriesPlaced(shelves, plan, m - 1);
      var a, b := AddedChunks(shelves, before, m - 1), GroupEntries(shelves[m - 1], before, m - 1);
      if at < m {
        MoveOut(a, b, multiset{PlacedChunk(shelves, plan)});
      }
    }
  }

  lemma AddedNext(shelves: seq<Shelf>, plan: seq<Assigned>, m: nat)
    requires m > 0 && FitsUpTo(shelves, plan, m)
    ensures FitsUpTo(shelves, plan, m - 1) && m <= |shelves| && GroupFits(shelves[m - 1], plan, m - 1)
    ensures AddedChunks(shelves, plan, m) == AddedChunks(shelves, plan, m - 1) + GroupEntries(shelves[m - 1], plan, m - 1)
  {
  }

  lemma MoveOut<T>(a: multiset<T>, b: multiset<T>, y: multiset<T>)
    ensures (a + y) + b == (a + b) + y == a + (b + y)
  {
  }

  ghost predicate Placeable(shelves: seq<Shelf>, plan: seq<Assigned>) {
    FitsUpTo(shelves, plan, |shelves|) && forall i :: 0 <= i < |plan| ==> plan[i].blob < |shelves|
  }

  lemma PlaceablePrefix(shelves: seq<Shelf>, plan: seq<Assigned>)
    requires Placeable(shelves, plan) && plan != []
    ensures var a, before := plan[|plan| - 1], plan[..|plan| - 1];
      && Placeable(shelves, before) && |a.chunk.plaintext| < U64_LIMIT && a.blob < |shelves|
      && GroupFits(shelves[a.blob], plan, a.blob) && GroupFits(shelves[a.blob], before, a.blob)
  {
    hide GroupFits;
    FitsPrefix(shelves, plan, |shelves|);
  }

  /** The entries of all the plan's chunks, in order of the plan. */
  ghost function PlannedChunks(shelves: seq<Shelf>, plan: seq<Assigned>): (xs: seq<Located<ChunkEntry>>)
    requires Placeable(shelves, plan)
    ensures |xs| == |plan|
  {
    if plan == [] then []
    else
      PlaceablePrefix(shelves, plan);
      PlannedChunks(shelves, plan[..|plan| - 1]) + [PlacedChunk(shelves, plan)]
  }

  lemma {:induction false} NothingAdded(shelves: seq<Shelf>, m: nat)
    requires FitsUpTo(shelves, [], m)
    ensures AddedChunks(shelves, [], m) == multiset{}
  {
    if m > 0 {
      NothingAdded(shelves, m - 1);
      NothingIndexed(shelves[m - 1].id);
    }
  }

  /** Blob by blob or chunk by chunk, the same entries are added. */
  lemma {:induction false} AddedIsPlanned(shelves: seq<Shelf>, plan: seq<Assigned>)
    requires Placeable(shelves, plan)
    ensures AddedChunks(shelves, plan, |shelves|) == multiset(PlannedChunks(shelves, plan))
  {
    hide GroupFits, AddedChunks, PlacedChunk;
    if plan == [] {
      NothingAdded(shelves, |shelves|);
    } else {
      PlaceablePrefix(shelves, plan);
      AddedIsPlanned(shelves, plan[..|plan| - 1]);
      AddedSnoc(shelves, plan, |shelves|);
    }
  }

  /** One of the group's records describes the plaintext by this entry. */
  ghost predicate Grouped(shelf: Shelf, plan: seq<Assigned>, k: nat, x: Located<ChunkEntry>, plaintext: seq<byte>) {
    && GroupFits(shelf, plan, k) && x.blobId == shelf.id
    && exists j :: 0 <= j < |GroupChunks(shelf, plan, k)|
                   && GroupChunks(shelf, plan, k)[j] == ChunkRecord(x.entry, plaintext)
  }

  ghost predicate EntryFor(x: Located<ChunkEntry>, c: NewChunk) {
    && x.entry.fileId == c.fileId && x.entry.sequenceNumber == c.sequenceNumber
    && x.entry.plaintextLength == |c.plaintext|
  }

  lemma GroupedLater(shelf: Shelf, plan: seq<Assigned>, k: nat, x: Located<ChunkEntry>, plaintext: seq<byte>)
    requires plan != [] && GroupFits(shelf, plan, k) && Grouped(shelf, plan[..|plan| - 1], k, x, plaintext)
    ensures Grouped(shelf, plan, k, x, plaintext)
  {
    GroupSnoc(shelf, plan, k);
    hide GroupChunks, GroupFits;
    var before := plan[..|plan| - 1];
    var j :| 0 <= j < |GroupChunks(shelf, before, k)|
             && GroupChunks(shelf, before, k)[j] == ChunkRecord(x.entry, plaintext);
    assert GroupChunks(shelf, plan, k)[j] == ChunkRecord(x.entry, plaintext);
  }

  lemma GroupedLast(shelves: seq<Shelf>, plan: seq<Assigned>)
    requires Placeable(shelves, plan) && plan != []
    ensures var a := plan[|plan| - 1];
      && a.blob < |shelves| && |a.chunk.plaintext| < U64_LIMIT
      && GroupFits(shelves[a.blob], plan[..|plan| - 1], a.blob)
      && Grouped(shelves[a.blob], plan, a.blob, PlacedChunk(shelves, plan), a.chunk.plaintext)
      && EntryFor(PlacedChunk(shelves, plan), a.chunk)
  {
    PlaceablePrefix(shelves, plan);
    var a := plan[|plan| - 1];
    GroupSnoc(shelves[a.blob], plan, a.blob);
    hide GroupChunks, GroupFits, Group, Tail, ChunkBytes;
    var rs, x := GroupChunks(shelves[a.blob], plan, a.blob), PlacedChunk(shelves, plan);
    assert rs[|rs| - 1] == ChunkRecord(x.entry, a.chunk.plaintext);
  }

  /** Each planned chunk ends up on its blob, under an entry that describes it. */
  lemma {:induction false} PlannedGrouped(shelves: seq<Shelf>, plan: seq<Assigned>, i: nat)
    requires Placeable(shelves, plan) && i < |plan|
    ensures plan[i].blob < |shelves|
    ensures EntryFor(PlannedChunks(shelves, plan)[i], plan[i].chunk)
    ensures Grouped(shelves[plan[i].blob], plan, plan[i].blob, PlannedChunks(shelves, plan)[i], plan[i].chunk.plaintext)
  {
    hide GroupFits, PlacedChunk, Grouped, EntryFor;
    PlaceablePrefix(shelves, plan);
    GroupedLast(shelves, plan);
    if i < |plan| - 1 {
      var before := plan[..|plan| - 1];
      PlannedGrouped(shelves, before, i);
      GroupedLater(shelves[plan[i].blob], plan, plan[i].blob, PlannedChunks(shelves, before)[i], plan[i].chunk.plaintext);
    }
  }

  lemma FitsNext(shelves: seq<Shelf>, plan: seq<Assigned>, c: CompleteEntry, k: nat)
    requires plan != [] && FitsUpTo(shelves, plan, k) && k < |shelves|
    ensures ShelvedUpTo(shelves, plan, c, k)[k] == shelves[k]
    ensures GroupFits(shelves[k], plan, k) ==> FitsUpTo(shelves, plan, k + 1)
  {
    hide GroupRecords, GroupFits;
  }
}
