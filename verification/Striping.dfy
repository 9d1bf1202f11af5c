/** Round-robin placement spreads chunks evenly. */
module Striping {
  import opened Basics
  import opened IndexCodec
  import opened Planner
  import opened Placement

  function Positions(plan: seq<Assigned>): (ks: seq<nat>)
    ensures |ks| == |plan|
  {
    seq(|plan|, i requires 0 <= i < |plan| => plan[i].blob)
  }

  /** The position after the last one chosen, going round `n` blobs. */
  function Following(start: nat, chosen: seq<nat>, n: nat): nat {
    if chosen == [] then start
    else var k := chosen[|chosen| - 1]; if k + 1 == n then 0 else k + 1
  }

  /** Each choice follows the one before. */
  ghost predicate Cyclic(start: nat, chosen: seq<nat>, n: nat) {
    chosen == [] ||
    (var before := chosen[..|chosen| - 1];
     Cyclic(start, before, n) && chosen[|chosen| - 1] == Following(start, before, n))
  }

  /** How far position `k` is from `start`, going round. */
  function Distance(start: nat, k: nat, n: nat): int {
    if start <= k then k - start else k + n - start
  }

  /** In a cyclic run every position has been chosen `q` times, and the first `r` once more. */
  lemma {:induction false} CyclicCounts(start: nat, chosen: seq<nat>, n: nat) returns (q: nat, r: nat)
    requires Cyclic(start, chosen, n) && start < n
    ensures r < n && Following(start, chosen, n) == if start + r < n then start + r else start + r - n
    ensures forall k :: 0 <= k < n ==> multiset(chosen)[k] == q + if Distance(start, k, n) < r then 1 else 0
  {
    if chosen == [] {
      q, r := 0, 0;
    } else {
      var before, last := chosen[..|chosen| - 1], chosen[|chosen| - 1];
      q, r := CyclicCounts(start, before, n);
      assert chosen == before + [last];
      r := r + 1;
      if r == n {
        q, r := q + 1, 0;
      }
    }
  }

  predicate Striped(cfg: VaultConfig) {
    cfg.splitFilesAcrossBlobs && cfg.stripeChunksAcrossBlobs
  }

  /** A round-robin choice, of a blob for a chunk or for a whole file, takes the one at the cursor when it
      has room. */
  lemma ChoiceAtCursor(sizes: seq<Result<u64>>, cfg: VaultConfig, cursor: nat, planned: map<nat, u64>, extra: nat)
    requires Striped(cfg) || (!cfg.splitFilesAcrossBlobs && extra <= cfg.maxBlobSize)
    requires sizes != [] && HasRoom(sizes, planned, extra, cfg.maxBlobSize, cursor % |sizes|)
    ensures Choose(sizes, cfg, cursor, planned, extra) == Ok(cursor % |sizes|) == Ok(Start(cfg, cursor, |sizes|))
  {
    var k := Start(cfg, cursor, |sizes|);
    assert Around(k, 0, |sizes|) == k;
    hide Start, Around;
  }

  /** Whenever a chunk is placed, the blob at the cursor has room for it. */
  ghost predicate RoomAtCursor(sizes: seq<Result<u64>>, cfg: VaultConfig, f: FileId, cursor: nat,
                               pieces: seq<seq<byte>>) {
    pieces == [] ||
    (var before, piece := pieces[..|pieces| - 1], pieces[|pieces| - 1];
     && RoomAtCursor(sizes, cfg, f, cursor, before)
     && var s := PlaceAll(sizes, cfg, f, cursor, before);
        s.Ok? && sizes != [] && EstimatedChunkSize(|piece|).Ok? ==>
          HasRoom(sizes, s.value.planned, EstimatedChunkSize(|piece|).value, cfg.maxBlobSize,
                  Start(cfg, s.value.cursor, |sizes|)))
  }

  lemma CyclicSnoc(start: nat, chosen: seq<nat>, n: nat, k: nat)
    requires Cyclic(start, chosen, n) && k == Following(start, chosen, n)
    ensures Cyclic(start, chosen + [k], n)
  {
    assert (chosen + [k])[..|chosen|] == chosen;
  }

  lemma CursorNext(cfg: VaultConfig, k: nat, n: nat)
    requires Striped(cfg) && k < n
    ensures Start(cfg, (k + 1) % n, n) == if k + 1 == n then 0 else k + 1
  {
  }

  /** A choice at the cursor goes on with the cycle. */
  lemma PlaceCyclic(sizes: seq<Result<u64>>, cfg: VaultConfig, f: FileId, s: Planning, piece: seq<byte>,
                    start: nat, chosen: seq<nat>)
    requires Striped(cfg) && sizes != [] && Place(sizes, cfg, f, s, piece).Ok?
    requires EstimatedChunkSize(|piece|).Ok? ==>
               HasRoom(sizes, s.planned, EstimatedChunkSize(|piece|).value, cfg.maxBlobSize, Start(cfg, s.cursor, |sizes|))
    requires Cyclic(start, chosen + Positions(s.plan), |sizes|)
    requires Start(cfg, s.cursor, |sizes|) == Following(start, chosen + Positions(s.plan), |sizes|)
    ensures var t := Place(sizes, cfg, f, s, piece).value;
      && Cyclic(start, chosen + Positions(t.plan), |sizes|)
      && Start(cfg, t.cursor, |sizes|) == Following(start, chosen + Positions(t.plan), |sizes|)
  {
    hide Choose, HasRoom, Cyclic;
    var t, k := Place(sizes, cfg, f, s, piece).value, Start(cfg, s.cursor, |sizes|);
    ChoiceAtCursor(sizes, cfg, s.cursor, s.planned, EstimatedChunkSize(|piece|).value);
    CursorNext(cfg, k, |sizes|);
    hide EstimatedChunkSize;
    CyclicSnoc(start, chosen + Positions(s.plan), |sizes|, k);
    assert chosen + Positions(t.plan) == chosen + Positions(s.plan) + [k];
  }

  lemma {:induction false} PlacedCyclic(sizes: seq<Result<u64>>, cfg: VaultConfig, f: FileId, cursor: nat,
                                        pieces: seq<seq<byte>>, start: nat, chosen: seq<nat>)
    requires Striped(cfg) && sizes != [] && RoomAtCursor(sizes, cfg, f, cursor, pieces)
    requires Cyclic(start, chosen, |sizes|) && Start(cfg, cursor, |sizes|) == Following(start, chosen, |sizes|)
    ensures var r := PlaceAll(sizes, cfg, f, cursor, pieces);
      r.Ok? ==>
        && Cyclic(start, chosen + Positions(r.value.plan), |sizes|)
        && Start(cfg, r.value.cursor, |sizes|) == Following(start, chosen + Positions(r.value.plan), |sizes|)
  {
    hide Place, HasRoom, EstimatedChunkSize, Cyclic, Start, Following;
    var r := PlaceAll(sizes, cfg, f, cursor, pieces);
    if pieces == [] {
      assert chosen + Positions(r.value.plan) == chosen;
    } else if r.Ok? {
      var before, piece := pieces[..|pieces| - 1], pieces[|pieces| - 1];
      PlacedCyclic(sizes, cfg, f, cursor, before, start, chosen);
      PlaceCyclic(sizes, cfg, f, PlaceAll(sizes, cfg, f, cursor, before).value, piece, start, chosen);
    }
  }

  /** The chunks of one file, and the sizes of the blobs when it is placed. */
  datatype Batch = Batch(sizes: seq<Result<u64>>, fileId: FileId, pieces: seq<seq<byte>>)

  datatype Spread = Spread(cursor: nat, chosen: seq<nat>)

  /** The blobs a run of files is spread over, the cursor carrying on from file to file. */
  function SpreadAll(cfg: VaultConfig, cursor: nat, batches: seq<Batch>): Result<Spread> {
    if batches == [] then Ok(Spread(cursor, []))
    else
      var b := batches[|batches| - 1];
      var now :- SpreadAll(cfg, cursor, batches[..|batches| - 1]);
      var s :- PlaceAll(b.sizes, cfg, b.fileId, now.cursor, b.pieces);
      Ok(Spread(s.cursor, now.chosen + Positions(s.plan)))
  }

  ghost predicate RoomThroughout(cfg: VaultConfig, cursor: nat, batches: seq<Batch>, n: nat) {
    batches == [] ||
    (var b, before := batches[|batches| - 1], batches[..|batches| - 1];
     && RoomThroughout(cfg, cursor, before, n) && |b.sizes| == n
     && var now := SpreadAll(cfg, cursor, before);
        now.Ok? ==> RoomAtCursor(b.sizes, cfg, b.fileId, now.value.cursor, b.pieces))
  }

  lemma NothingCyclic(start: nat, n: nat)
    ensures Cyclic(start, [], n) && Following(start, [], n) == start
  {
  }

  lemma {:induction false} SpreadCyclic(cfg: VaultConfig, cursor: nat, batches: seq<Batch>, n: nat)
    requires Striped(cfg) && n > 0
    requires RoomThroughout(cfg, cursor, batches, n)
    ensures var r := SpreadAll(cfg, cursor, batches);
      r.Ok? ==>
        && Cyclic(Start(cfg, cursor, n), r.value.chosen, n)
        && Start(cfg, r.value.cursor, n) == Following(Start(cfg, cursor, n), r.value.chosen, n)
  {
    hide Cyclic, Following, Start, RoomAtCursor, PlaceAll;
    if batches == [] {
      NothingCyclic(Start(cfg, cursor, n), n);
    } else if SpreadAll(cfg, cursor, batches).Ok? {
      var b, before := batches[|batches| - 1], batches[..|batches| - 1];
      SpreadCyclic(cfg, cursor, before, n);
      var now := SpreadAll(cfg, cursor, before).value;
      PlacedCyclic(b.sizes, cfg, b.fileId, now.cursor, b.pieces, Start(cfg, cursor, n), now.chosen);
    }
  }

  /** Striping balance: over any run of files, while the blob at the cursor has room, the numbers of
      chunks given to any two blobs differ by at most one. */
  lemma StripingBalance(cfg: VaultConfig, cursor: nat, batches: seq<Batch>, n: nat, a: nat, b: nat)
    requires Striped(cfg) && a < n && b < n
    requires RoomThroughout(cfg, cursor, batches, n) && SpreadAll(cfg, cursor, batches).Ok?
    ensures var chosen := SpreadAll(cfg, cursor, batches).value.chosen;
      multiset(chosen)[a] <= multiset(chosen)[b] + 1
  {
    SpreadCyclic(cfg, cursor, batches, n);
    var q, r := CyclicCounts(Start(cfg, cursor, n), SpreadAll(cfg, cursor, batches).value.chosen, n);
  }

  // Runs of puts

  /** Where a run of puts stands: the blobs' sizes, the cursor, and the blobs given chunks so far. */
  datatype Standing = Standing(sizes: seq<Result<u64>>, cursor: nat, chosen: seq<nat>)

  /** The sizes once a plan has been written. */
  function SizesAfter(sizes: seq<Result<u64>>, plan: seq<Assigned>): (after: seq<Result<u64>>)
    requires plan != []
    ensures |after| == |sizes|
  {
    seq(|sizes|, k requires 0 <= k < |sizes| =>
      if Touched(plan, k) && sizes[k].Ok? then CheckedAdd(sizes[k].value, Charged(plan, k)) else sizes[k])
  }

  /** What a put that stores its file changes. */
  function AfterPut(cfg: VaultConfig, s: Standing, f: FileId, contents: seq<byte>): Result<Standing>
    requires cfg.maxChunkSize > 0
  {
    var plan :- PlanFile(s.sizes, cfg, s.cursor, f, contents);
    PlanCovers(s.sizes, cfg, s.cursor, f, contents);
    Ok(Standing(SizesAfter(s.sizes, plan), CursorAfter(s.sizes, cfg, s.cursor, f, contents), s.chosen + Positions(plan)))
  }

  function AfterPuts(cfg: VaultConfig, s: Standing, items: seq<(FileId, seq<byte>)>): Result<Standing>
    requires cfg.maxChunkSize > 0
  {
    if items == [] then Ok(s)
    else
      var before :- AfterPuts(cfg, s, items[..|items| - 1]);
      AfterPut(cfg, before, items[|items| - 1].0, items[|items| - 1].1)
  }

  /** At each put of a run the blob at the cursor has room for each chunk. */
  ghost predicate RoomForAll(cfg: VaultConfig, s: Standing, items: seq<(FileId, seq<byte>)>)
    requires cfg.maxChunkSize > 0
  {
    items == [] ||
    (var before, item := items[..|items| - 1], items[|items| - 1];
     && RoomForAll(cfg, s, before)
     && var now := AfterPuts(cfg, s, before);
        now.Ok? && EffectiveChunkSize(cfg).Ok? ==>
          RoomAtCursor(now.value.sizes, cfg, item.0, now.value.cursor,
                       FilePieces(item.1, EffectiveChunkSize(cfg).value)))
  }

  /** The batches a run of puts places. */
  ghost function BatchesOf(cfg: VaultConfig, s: Standing, items: seq<(FileId, seq<byte>)>): (batches: seq<Batch>)
    requires cfg.maxChunkSize > 0 && EffectiveChunkSize(cfg).Ok?
    ensures |batches| == |items|
  {
    if items == [] then []
    else
      var before, item := items[..|items| - 1], items[|items| - 1];
      var now := AfterPuts(cfg, s, before);
      BatchesOf(cfg, s, before)
      + [Batch(if now.Ok? then now.value.sizes else s.sizes, item.0, FilePieces(item.1, EffectiveChunkSize(cfg).value))]
  }

  lemma StripedPut(cfg: VaultConfig, s: Standing, f: FileId, contents: seq<byte>)
    requires Striped(cfg) && cfg.maxChunkSize > 0 && AfterPut(cfg, s, f, contents).Ok?
    ensures EffectiveChunkSize(cfg).Ok? && |AfterPut(cfg, s, f, contents).value.sizes| == |s.sizes|
    ensures var r := PlaceAll(s.sizes, cfg, f, s.cursor, FilePieces(contents, EffectiveChunkSize(cfg).value));
      && r.Ok? && AfterPut(cfg, s, f, contents).value.cursor == r.value.cursor
      && AfterPut(cfg, s, f, contents).value.chosen == s.chosen + Positions(r.value.plan)
  {
    hide PlaceAll, Finalize, EffectiveChunkSize, PlaceCursor, FilePieces;
    PlacedCursor(s.sizes, cfg, f, s.cursor, FilePieces(contents, EffectiveChunkSize(cfg).value));
  }

  lemma SpreadSnoc(cfg: VaultConfig, cursor: nat, batches: seq<Batch>, b: Batch)
    ensures SpreadAll(cfg, cursor, batches + [b]) ==
              match SpreadAll(cfg, cursor, batches)
              case Err(e) => Err(e)
              case Ok(now) =>
                match PlaceAll(b.sizes, cfg, b.fileId, now.cursor, b.pieces)
                case Err(e) => Err(e)
                case Ok(s) => Ok(Spread(s.cursor, now.chosen + Positions(s.plan)))
  {
    assert (batches + [b])[..|batches|] == batches;
    hide PlaceAll;
  }

  lemma RoomSnoc(cfg: VaultConfig, cursor: nat, batches: seq<Batch>, b: Batch, n: nat)
    requires RoomThroughout(cfg, cursor, batches, n) && |b.sizes| == n
    requires var now := SpreadAll(cfg, cursor, batches);
      now.Ok? ==> RoomAtCursor(b.sizes, cfg, b.fileId, now.value.cursor, b.pieces)
    ensures RoomThroughout(cfg, cursor, batches + [b], n)
  {
    assert (batches + [b])[..|batches|] == batches;
    hide SpreadAll, RoomAtCursor;
  }

  /** A run of puts that store their files is a run of batches. */
  lemma {:induction false} PutsSpread(cfg: VaultConfig, s: Standing, items: seq<(FileId, seq<byte>)>)
    requires Striped(cfg) && cfg.maxChunkSize > 0 && s.chosen == []
    requires AfterPuts(cfg, s, items).Ok? && EffectiveChunkSize(cfg).Ok?
    ensures var now := AfterPuts(cfg, s, items).value;
      && |now.sizes| == |s.sizes|
      && SpreadAll(cfg, s.cursor, BatchesOf(cfg, s, items)) == Ok(Spread(now.cursor, now.chosen))
      && (RoomForAll(cfg, s, items) ==> RoomThroughout(cfg, s.cursor, BatchesOf(cfg, s, items), |s.sizes|))
  {
    if items != [] {
      var before, item := items[..|items| - 1], items[|items| - 1];
      PutsSpread(cfg, s, before);
      hide SpreadAll, RoomThroughout, RoomAtCursor, AfterPut, PlaceAll, EffectiveChunkSize, FilePieces;
      var was, batches := AfterPuts(cfg, s, before).value, BatchesOf(cfg, s, before);
      StripedPut(cfg, was, item.0, item.1);
      var b := Batch(was.sizes, item.0, FilePieces(item.1, EffectiveChunkSize(cfg).value));
      SpreadSnoc(cfg, s.cursor, batches, b);
      if RoomForAll(cfg, s, items) {
        RoomSnoc(cfg, s.cursor, batches, b, |s.sizes|);
      }
    }
  }

  /** Striping balance of puts: over a run of puts that store their files, while the blob at the cursor
      has room, the numbers of chunks given to any two blobs differ by at most one. */
  lemma PutsBalance(cfg: VaultConfig, s: Standing, items: seq<(FileId, seq<byte>)>, a: nat, b: nat)
    requires Striped(cfg) && cfg.maxChunkSize > 0 && s.chosen == [] && a < |s.sizes| && b < |s.sizes|
    requires AfterPuts(cfg, s, items).Ok? && RoomForAll(cfg, s, items)
    ensures var chosen := AfterPuts(cfg, s, items).value.chosen;
      multiset(chosen)[a] <= multiset(chosen)[b] + 1
  {
    hide SpreadAll, RoomThroughout, RoomAtCursor, AfterPut, EffectiveChunkSize, BatchesOf;
    if EffectiveChunkSize(cfg).Ok? {
      PutsSpread(cfg, s, items);
      StripingBalance(cfg, s.cursor, BatchesOf(cfg, s, items), |s.sizes|, a, b);
    } else {
      NoPuts(cfg, s, items);
    }
  }

  lemma NoPuts(cfg: VaultConfig, s: Standing, items: seq<(FileId, seq<byte>)>)
    requires Striped(cfg) && cfg.maxChunkSize > 0 && EffectiveChunkSize(cfg).Err? && AfterPuts(cfg, s, items).Ok?
    ensures AfterPuts(cfg, s, items).value == s
  {
  }

  /** A blob's group is as long as the blob was chosen often. */
  lemma {:induction false} GroupCount(plan: seq<Assigned>, k: nat)
    ensures |Group(plan, k)| == multiset(Positions(plan))[k]
  {
    if plan != [] {
      GroupCount(plan[..|plan| - 1], k);
      assert Positions(plan) == Positions(plan[..|plan| - 1]) + [plan[|plan| - 1].blob];
    }
  }
}
