/** What a plan covers and what it costs each blob. */
module Placement {
  import opened Basics
  import opened IndexCodec
  import opened Transaction
  import opened Planner

  /** The plan stores the pieces in order as the chunks 0, 1, 2 and so on of the file. */
  ghost predicate Covers(plan: seq<Assigned>, n: nat, f: FileId, pieces: seq<seq<byte>>) {
    && |plan| == |pieces|
    && forall i :: 0 <= i < |plan| ==>
         && plan[i].blob < n && plan[i].chunk.fileId == f
         && plan[i].chunk.sequenceNumber == i && plan[i].chunk.plaintext == pieces[i]
  }

  /** The chunks that go to one blob, in order. */
  function Group(plan: seq<Assigned>, k: nat): seq<NewChunk> {
    if plan == [] then []
    else Group(plan[..|plan| - 1], k) + if plan[|plan| - 1].blob == k then [plan[|plan| - 1].chunk] else []
  }

  function WireSize(plaintextLen: nat): nat {
    plaintextLen + CHUNK_FRAME_OVERHEAD + CHUNK_ENTRY_WIRE_LEN
  }

  /** The bytes of a blob's frames and chunk entries in a plan. */
  function PlannedBytes(plan: seq<Assigned>, k: nat): nat {
    if plan == [] then 0
    else PlannedBytes(plan[..|plan| - 1], k)
         + if plan[|plan| - 1].blob == k then WireSize(|plan[|plan| - 1].chunk.plaintext|) else 0
  }

  /** The blob that gets the completion entry: the last one that gets a chunk. */
  function LastBlob(plan: seq<Assigned>): nat
    requires plan != []
  {
    if |plan| == 1 then plan[0].blob else Max(LastBlob(plan[..|plan| - 1]), plan[|plan| - 1].blob)
  }

  /** Everything a plan adds to a blob. */
  function Charged(plan: seq<Assigned>, k: nat): nat
    requires plan != []
  {
    PlannedBytes(plan, k) + if k == LastBlob(plan) then FILE_COMPLETE_ENTRY_WIRE_LEN else 0
  }

  predicate Touched(plan: seq<Assigned>, k: nat) {
    exists i :: 0 <= i < |plan| && plan[i].blob == k
  }

  ghost predicate WithinCapacity(sizes: seq<Result<u64>>, max: nat, plan: seq<Assigned>)
    requires plan != []
  {
    forall k :: 0 <= k < |sizes| && Touched(plan, k) ==> sizes[k].Ok? && sizes[k].value + Charged(plan, k) <= max
  }

  // Cutting a file

  lemma {:induction false} PiecesJoin(contents: seq<byte>, size: nat)
    requires size > 0
    ensures Join(Pieces(contents, size)) == contents
    ensures |Pieces(contents, size)| == CeilDiv(|contents|, size) <= |contents|
    ensures forall i :: 0 <= i < |Pieces(contents, size)| ==> 0 < |Pieces(contents, size)[i]| <= size
    ensures forall i :: 0 <= i < |Pieces(contents, size)| - 1 ==> |Pieces(contents, size)[i]| == size
    decreases |contents|
  {
    DivOnce(|contents|, size);
    if contents != [] {
      var n := Min(size, |contents|);
      PiecesJoin(contents[n..], size);
      JoinAppend([contents[..n]], Pieces(contents[n..], size));
      JoinOne(contents[..n]);
    }
  }

  lemma JoinOne(piece: seq<byte>)
    ensures Join([piece]) == piece
  {
    assert [piece][..0] == [];
  }

  /** One slice fewer divides what is left. */
  lemma DivOnce(n: nat, d: nat)
    requires d > 0
    ensures CeilDiv(n, d) == if n == 0 then 0 else 1 + CeilDiv(n - Min(d, n), d)
  {
    Quotient(d - 1, d, 0, d - 1);
    if n == 0 {
    } else if n <= d {
      Quotient(n + d - 1, d, 1, n - 1);
    } else {
      Quotient(n + d - 1, d, (n - 1) / d + 1, (n - 1) % d);
    }
  }

  lemma Quotient(n: nat, d: nat, q: nat, r: nat)
    requires n == d * q + r && r < d
    ensures n / d == q
  {
    var q', r' := n / d, n % d;
    assert n == d * q' + r';
    assert d * (q - q') == r' - r;
    Apart(d, q - q');
  }

  lemma Apart(d: nat, x: int)
    ensures x == 0 || d * x >= d || d * x <= 0 - d
  {
    if x > 0 {
      Product(d, 1, x);
    } else if x < 0 {
      Product(d, 1, -x);
      assert d * -x == 0 - d * x;
    }
  }

  lemma FilePiecesJoin(contents: seq<byte>, size: nat)
    requires size > 0
    ensures Join(FilePieces(contents, size)) == contents
    ensures |FilePieces(contents, size)| == Max(1, CeilDiv(|contents|, size)) <= Max(1, |contents|)
    ensures forall i :: 0 <= i < |FilePieces(contents, size)| ==> |FilePieces(contents, size)[i]| <= size
  {
    PiecesJoin(contents, size);
    JoinOne([]);
    DivOnce(|contents|, size);
  }

  // Covering

  lemma CoversSnoc(plan: seq<Assigned>, n: nat, f: FileId, pieces: seq<seq<byte>>, a: Assigned)
    requires pieces != [] && Covers(plan, n, f, pieces[..|pieces| - 1])
    requires a.blob < n && a.chunk.fileId == f && a.chunk.sequenceNumber == |pieces| - 1
             && a.chunk.plaintext == pieces[|pieces| - 1]
    ensures Covers(plan + [a], n, f, pieces)
  {
  }

  lemma {:induction false} PlaceAllCovers(
      sizes: seq<Result<u64>>, cfg: VaultConfig, f: FileId, cursor: nat, pieces: seq<seq<byte>>)
    ensures var r := PlaceAll(sizes, cfg, f, cursor, pieces);
      r.Ok? ==> Covers(r.value.plan, |sizes|, f, pieces) && r.value.next == |pieces|
  {
    if pieces == [] {
    } else {
      hide Choose;
      var before := PlaceAll(sizes, cfg, f, cursor, pieces[..|pieces| - 1]);
      PlaceAllCovers(sizes, cfg, f, cursor, pieces[..|pieces| - 1]);
      var r := PlaceAll(sizes, cfg, f, cursor, pieces);
      if r.Ok? {
        CoversSnoc(before.value.plan, |sizes|, f, pieces, r.value.plan[|pieces| - 1]);
      }
    }
  }

  lemma {:induction false} AssignAllCovers(k: nat, n: nat, f: FileId, pieces: seq<seq<byte>>)
    requires k < n
    ensures |pieces| < U64_LIMIT ==> AssignAll(k, f, pieces).Ok?
    ensures var r := AssignAll(k, f, pieces);
      r.Ok? ==> Covers(r.value, n, f, pieces) && forall i :: 0 <= i < |r.value| ==> r.value[i].blob == k
  {
    if pieces == [] {
    } else {
      AssignAllCovers(k, n, f, pieces[..|pieces| - 1]);
      var r := AssignAll(k, f, pieces);
      if r.Ok? {
        CoversSnoc(AssignAll(k, f, pieces[..|pieces| - 1]).value, n, f, pieces, r.value[|pieces| - 1]);
      }
    }
  }

  /** The slice size a mode uses. */
  function SliceSize(cfg: VaultConfig): (size: u64)
    requires cfg.maxChunkSize > 0
    ensures 0 < size <= cfg.maxChunkSize
  {
    if cfg.splitFilesAcrossBlobs && EffectiveChunkSize(cfg).Ok? then EffectiveChunkSize(cfg).value else cfg.maxChunkSize
  }

  /** A plan covers the file: its plaintexts, in order of sequence number, are the contents. */
  lemma PlanCovers(sizes: seq<Result<u64>>, cfg: VaultConfig, cursor: nat, f: FileId, contents: seq<byte>)
    requires cfg.maxChunkSize > 0
    ensures var r, pieces := PlanFile(sizes, cfg, cursor, f, contents), FilePieces(contents, SliceSize(cfg));
      && Join(pieces) == contents
      && (forall i :: 0 <= i < |pieces| ==> |pieces[i]| <= SliceSize(cfg))
      && (r.Ok? ==> r.value != [] && Covers(r.value, |sizes|, f, pieces))
  {
    hide PlaceAll, AssignAll, Choose, EstimatedWriteSize, CeilDiv, Finalize, Pieces;
    var pieces := FilePieces(contents, SliceSize(cfg));
    FilePiecesJoin(contents, SliceSize(cfg));
    if cfg.splitFilesAcrossBlobs {
      PlaceAllCovers(sizes, cfg, f, cursor, pieces);
    } else {
      var size := EstimatedWriteSize(|contents|, Max(1, CeilDiv(|contents|, cfg.maxChunkSize)));
      if size.Ok? {
        var k := Choose(sizes, cfg, cursor, NOTHING_PLANNED, size.value);
        if k.Ok? {
          AssignAllCovers(k.value, |sizes|, f, pieces);
        }
      }
    }
  }

  // Cost

  ghost predicate Accounts(sizes: seq<Result<u64>>, cfg: VaultConfig, s: Planning) {
    && (forall k :: k in s.planned <==> Touched(s.plan, k))
    && forall k :: k in s.planned ==>
         && k < |sizes| && s.planned[k] == PlannedBytes(s.plan, k)
         && sizes[k].Ok? && sizes[k].value + s.planned[k] <= cfg.maxBlobSize
  }

  lemma PlannedBytesSnoc(plan: seq<Assigned>, a: Assigned, k: nat)
    ensures PlannedBytes(plan + [a], k)
         == PlannedBytes(plan, k) + if a.blob == k then WireSize(|a.chunk.plaintext|) else 0
    ensures Touched(plan + [a], k) <==> Touched(plan, k) || a.blob == k
  {
    assert (plan + [a])[..|plan|] == plan;
    if Touched(plan, k) {
      var i :| 0 <= i < |plan| && plan[i].blob == k;
      assert (plan + [a])[i].blob == k;
    }
    if a.blob == k {
      assert (plan + [a])[|plan|].blob == k;
    }
  }

  lemma Untouched(plan: seq<Assigned>, k: nat)
    requires !Touched(plan, k)
    ensures PlannedBytes(plan, k) == 0 && Group(plan, k) == []
  {
    if plan != [] {
      var before, a := plan[..|plan| - 1], plan[|plan| - 1];
      assert plan == before + [a];
      PlannedBytesSnoc(before, a, k);
      Untouched(before, k);
    }
  }

  /** A chosen blob has room for what is planned on it and the new bytes. */
  lemma ChosenHasRoom(sizes: seq<Result<u64>>, cfg: VaultConfig, cursor: nat, planned: map<nat, u64>, extra: u64)
    ensures var r := Choose(sizes, cfg, cursor, planned, extra);
      r.Ok? ==>
        && sizes[r.value].Ok?
        && sizes[r.value].value + PlannedFor(planned, r.value) + extra <= cfg.maxBlobSize
        && WrappingAdd(PlannedFor(planned, r.value), extra) == PlannedFor(planned, r.value) + extra
  {
    if |sizes| > 0 {
      var start := Start(cfg, cursor, |sizes|);
      hide Start, Scan;
      var o := ScanFindsFirst(sizes, planned, extra, cfg.maxBlobSize, start, 0);
    }
  }

  lemma AccountsStep(sizes: seq<Result<u64>>, cfg: VaultConfig, s: Planning, next: Planning, a: Assigned, bytes: u64)
    requires Accounts(sizes, cfg, s) && a.blob < |sizes| && bytes == WireSize(|a.chunk.plaintext|)
    requires sizes[a.blob].Ok? && sizes[a.blob].value + PlannedFor(s.planned, a.blob) + bytes <= cfg.maxBlobSize
    requires next.plan == s.plan + [a]
    requires next.planned == s.planned[a.blob := PlannedFor(s.planned, a.blob) + bytes]
    ensures Accounts(sizes, cfg, next)
  {
    if a.blob !in s.planned {
      Untouched(s.plan, a.blob);
    }
    hide PlannedBytes, Touched;
    forall j: nat
      ensures j in next.planned <==> Touched(next.plan, j)
      ensures j in next.planned ==>
        && j < |sizes| && next.planned[j] == PlannedBytes(next.plan, j)
        && sizes[j].Ok? && sizes[j].value + next.planned[j] <= cfg.maxBlobSize
    {
      PlannedBytesSnoc(s.plan, a, j);
    }
  }

  lemma PlaceAccounts(sizes: seq<Result<u64>>, cfg: VaultConfig, f: FileId, s: Planning, piece: seq<byte>)
    requires Accounts(sizes, cfg, s)
    ensures var r := Place(sizes, cfg, f, s, piece);
      r.Ok? ==> Accounts(sizes, cfg, r.value)
  {
    hide Choose, Accounts, WrappingAdd;
    var r := Place(sizes, cfg, f, s, piece);
    if r.Ok? {
      var bytes := EstimatedChunkSize(|piece|).value;
      ChosenHasRoom(sizes, cfg, s.cursor, s.planned, bytes);
      var k := Choose(sizes, cfg, s.cursor, s.planned, bytes).value;
      AccountsStep(sizes, cfg, s, r.value, Assigned(k, NewChunk(f, s.next, piece)), bytes);
    }
  }

  lemma {:induction false} PlaceAllAccounts(
      sizes: seq<Result<u64>>, cfg: VaultConfig, f: FileId, cursor: nat, pieces: seq<seq<byte>>)
    ensures var r := PlaceAll(sizes, cfg, f, cursor, pieces);
      r.Ok? ==> Accounts(sizes, cfg, r.value)
  {
    if pieces == [] {
    } else {
      PlaceAllAccounts(sizes, cfg, f, cursor, pieces[..|pieces| - 1]);
      var before := PlaceAll(sizes, cfg, f, cursor, pieces[..|pieces| - 1]);
      if before.Ok? {
        PlaceAccounts(sizes, cfg, f, before.value, pieces[|pieces| - 1]);
      }
      hide Place, Accounts;
    }
  }

  lemma {:induction false} LastBlobIsLast(plan: seq<Assigned>)
    requires plan != []
    ensures Touched(plan, LastBlob(plan)) && forall k: nat :: Touched(plan, k) ==> k <= LastBlob(plan)
  {
    var n := |plan| - 1;
    assert plan == plan[..n] + [plan[n]];
    forall k: nat ensures Touched(plan, k) <==> Touched(plan[..n], k) || plan[n].blob == k {
      PlannedBytesSnoc(plan[..n], plan[n], k);
    }
    if n == 0 {
    } else {
      LastBlobIsLast(plan[..n]);
    }
  }

  /** What the final check compares with the bound. */
  ghost function FinalBytes(plan: seq<Assigned>, k: nat): nat
    requires plan != []
  {
    if k == LastBlob(plan) then (PlannedBytes(plan, k) + FILE_COMPLETE_ENTRY_WIRE_LEN) % U64_LIMIT
    else PlannedBytes(plan, k)
  }

  lemma FinalBytesWithin(sizes: seq<Result<u64>>, max: u64, plan: seq<Assigned>)
    requires plan != [] && Touched(plan, LastBlob(plan)) && LastBlob(plan) < |sizes|
    requires forall k :: 0 <= k < |sizes| && Touched(plan, k) ==>
               sizes[k].Ok? && sizes[k].value + FinalBytes(plan, k) <= max
    ensures WithinCapacity(sizes, max, plan)
       <==> PlannedBytes(plan, LastBlob(plan)) + FILE_COMPLETE_ENTRY_WIRE_LEN < U64_LIMIT
  {
    hide PlannedBytes, LastBlob, Touched;
    var last := LastBlob(plan);
    if PlannedBytes(plan, last) + FILE_COMPLETE_ENTRY_WIRE_LEN < U64_LIMIT {
      forall k | 0 <= k < |sizes| && Touched(plan, k) ensures sizes[k].Ok? && sizes[k].value + Charged(plan, k) <= max {
        assert FinalBytes(plan, k) == Charged(plan, k);
      }
    }
  }

  /** The completion entry does not fit on the last blob of a placement. */
  ghost predicate CompletionRefused(sizes: seq<Result<u64>>, max: nat, plan: seq<Assigned>) {
    && plan != [] && LastBlob(plan) < |sizes| && sizes[LastBlob(plan)].Ok?
    && max < sizes[LastBlob(plan)].value + FinalBytes(plan, LastBlob(plan)) < U64_LIMIT
  }

  ghost predicate CompletionFits(sizes: seq<Result<u64>>, max: nat, plan: seq<Assigned>) {
    && plan != [] && LastBlob(plan) < |sizes| && sizes[LastBlob(plan)].Ok?
    && sizes[LastBlob(plan)].value + FinalBytes(plan, LastBlob(plan)) <= max
  }

  /** When every planned blob but the last is known to be within the bound, the check is about the last. */
  lemma {:induction false} FinalCheckLast(sizes: seq<Result<u64>>, planned: map<nat, u64>, max: u64, last: nat, from: nat)
    requires from <= |sizes| && last < |sizes| && last in planned && sizes[last].Ok?
    requires forall k :: k in planned && k != last ==>
               k < last && sizes[k].Ok? && sizes[k].value + planned[k] <= max
    ensures var total := sizes[last].value as int + planned[last];
      FinalCheck(sizes, planned, max, from)
        == if from > last || total <= max then Ok(())
           else if total < U64_LIMIT then Err(NoWritableBlob) else Err(IntegerOverflow)
    decreases |sizes| - from
  {
    if from < |sizes| {
      FinalCheckLast(sizes, planned, max, last, from + 1);
    }
  }

  /** What the final check says of a placement: only the last planned blob can be over the bound, by the
      completion entry charged to it. */
  lemma FinalizeMeans(sizes: seq<Result<u64>>, cfg: VaultConfig, s: Planning)
    requires Accounts(sizes, cfg, s) && s.plan != []
    ensures Finalize(sizes, cfg, s.planned)
         == if CompletionFits(sizes, cfg.maxBlobSize, s.plan) then Ok(())
            else if CompletionRefused(sizes, cfg.maxBlobSize, s.plan) then Err(NoWritableBlob)
            else Err(IntegerOverflow)
    ensures LastBlob(s.plan) in s.planned
    ensures Finalize(sizes, cfg, s.planned).Ok?
       <==> forall k :: 0 <= k < |sizes| && Touched(s.plan, k) ==>
              sizes[k].Ok? && sizes[k].value + FinalBytes(s.plan, k) <= cfg.maxBlobSize
  {
    LastBlobIsLast(s.plan);
    hide FinalCheck, LastBlob, Touched, PlannedBytes;
    var last := LastBlob(s.plan);
    assert LastKey(s.planned, |sizes|) == Some(last);
    var charged := s.planned[last := WrappingAdd(s.planned[last], FILE_COMPLETE_ENTRY_WIRE_LEN)];
    hide LastKey;
    FinalCheckLast(sizes, charged, cfg.maxBlobSize, last, 0);
    forall k | 0 <= k < |sizes|
      ensures k in charged <==> Touched(s.plan, k)
      ensures k in charged ==> charged[k] == FinalBytes(s.plan, k)
    {
    }
  }

  /** A split plan keeps every blob it touches within the bound, completion entry included, unless the
      unchecked addition of the completion entry wraps. */
  lemma SplitWithinCapacity(sizes: seq<Result<u64>>, cfg: VaultConfig, cursor: nat, f: FileId, contents: seq<byte>)
    requires cfg.maxChunkSize > 0 && PlanSplit(sizes, cfg, cursor, f, contents).Ok?
    ensures var plan := PlanSplit(sizes, cfg, cursor, f, contents).value;
      && plan != []
      && (WithinCapacity(sizes, cfg.maxBlobSize, plan)
          <==> PlannedBytes(plan, LastBlob(plan)) + FILE_COMPLETE_ENTRY_WIRE_LEN < U64_LIMIT)
  {
    var pieces := FilePieces(contents, EffectiveChunkSize(cfg).value);
    PlaceAllCovers(sizes, cfg, f, cursor, pieces);
    PlaceAllAccounts(sizes, cfg, f, cursor, pieces);
    var s := PlaceAll(sizes, cfg, f, cursor, pieces).value;
    FinalizeMeans(sizes, cfg, s);
    LastBlobIsLast(s.plan);
    var i :| 0 <= i < |s.plan| && s.plan[i].blob == LastBlob(s.plan);
    hide PlaceAll, Finalize, LastBlob, Touched, PlannedBytes, FilePieces, EffectiveChunkSize, FinalBytes,
         WithinCapacity;
    FinalBytesWithin(sizes, cfg.maxBlobSize, s.plan);
  }

  lemma {:induction false} WholeBytes(plan: seq<Assigned>, k: nat, pieces: seq<seq<byte>>)
    requires |plan| == |pieces|
    requires forall i :: 0 <= i < |plan| ==> plan[i].blob == k && plan[i].chunk.plaintext == pieces[i]
    ensures PlannedBytes(plan, k) == |Join(pieces)| + (CHUNK_FRAME_OVERHEAD + CHUNK_ENTRY_WIRE_LEN) * |pieces|
    ensures forall j :: j != k ==> !Touched(plan, j)
    ensures plan != [] ==> LastBlob(plan) == k
  {
    if plan == [] {
    } else {
      var n := |plan| - 1;
      WholeBytes(plan[..n], k, pieces[..n]);
    }
  }

  lemma WholeEstimate(plaintextLen: nat, count: nat)
    ensures var r := EstimatedWriteSize(plaintextLen, count);
      r.Ok? ==>
        r.value == plaintextLen + (CHUNK_FRAME_OVERHEAD + CHUNK_ENTRY_WIRE_LEN) * count + FILE_COMPLETE_ENTRY_WIRE_LEN
  {
  }

  /** A whole-file plan puts the file and its completion entry on one blob, within the bound. */
  lemma WholeWithinCapacity(sizes: seq<Result<u64>>, cfg: VaultConfig, cursor: nat, f: FileId, contents: seq<byte>)
    requires cfg.maxChunkSize > 0 && PlanWhole(sizes, cfg, cursor, f, contents).Ok?
    ensures var plan := PlanWhole(sizes, cfg, cursor, f, contents).value;
      && plan != []
      && (forall i :: 0 <= i < |plan| ==> plan[i].blob == plan[0].blob)
      && WithinCapacity(sizes, cfg.maxBlobSize, plan)
  {
    hide Choose, EstimatedWriteSize, CeilDiv, FilePieces, AssignAll, PlannedBytes, LastBlob, Join, Touched;
    var pieces := FilePieces(contents, cfg.maxChunkSize);
    FilePiecesJoin(contents, cfg.maxChunkSize);
    var count := Max(1, CeilDiv(|contents|, cfg.maxChunkSize));
    var size := EstimatedWriteSize(|contents|, count).value;
    WholeEstimate(|contents|, count);
    ChosenHasRoom(sizes, cfg, cursor, NOTHING_PLANNED, size);
    var k := Choose(sizes, cfg, cursor, NOTHING_PLANNED, size).value;
    AssignAllCovers(k, |sizes|, f, pieces);
    var plan := AssignAll(k, f, pieces).value;
    WholeBytes(plan, k, pieces);
  }

  lemma AssignOne(k: nat, f: FileId, piece: seq<byte>)
    ensures AssignAll(k, f, [piece]) == Ok([Assigned(k, NewChunk(f, 0, piece))])
  {
    assert [piece][..0] == [];
    var none: seq<Assigned> := [];
    assert none + [Assigned(k, NewChunk(f, 0, piece))] == [Assigned(k, NewChunk(f, 0, piece))];
  }

  /** A placement that fails part-way fails as a whole. */
  lemma {:induction false} PlaceAllFails(sizes: seq<Result<u64>>, cfg: VaultConfig, f: FileId, cursor: nat,
                                         pieces: seq<seq<byte>>, n: nat)
    requires n <= |pieces| && PlaceAll(sizes, cfg, f, cursor, pieces[..n]).Err?
    ensures PlaceAll(sizes, cfg, f, cursor, pieces) == PlaceAll(sizes, cfg, f, cursor, pieces[..n])
    decreases |pieces|
  {
    if n == |pieces| {
      assert pieces[..n] == pieces;
    } else {
      hide Place;
      assert pieces[..|pieces| - 1][..n] == pieces[..n];
      PlaceAllFails(sizes, cfg, f, cursor, pieces[..|pieces| - 1], n);
    }
  }

  lemma {:induction false} PlaceCursorFails(sizes: seq<Result<u64>>, cfg: VaultConfig, f: FileId, cursor: nat,
                                            pieces: seq<seq<byte>>, n: nat)
    requires n <= |pieces| && PlaceAll(sizes, cfg, f, cursor, pieces[..n]).Err?
    ensures PlaceCursor(sizes, cfg, f, cursor, pieces) == PlaceCursor(sizes, cfg, f, cursor, pieces[..n])
    decreases |pieces|
  {
    if n == |pieces| {
      assert pieces[..n] == pieces;
    } else {
      hide Place, PieceCursor;
      var before := pieces[..|pieces| - 1];
      assert before[..n] == pieces[..n];
      PlaceCursorFails(sizes, cfg, f, cursor, before, n);
      PlaceAllFails(sizes, cfg, f, cursor, before, n);
    }
  }

  /** Once every piece is placed, the cursor is past the last one's blob. */
  lemma PlacedCursor(sizes: seq<Result<u64>>, cfg: VaultConfig, f: FileId, cursor: nat, pieces: seq<seq<byte>>)
    ensures var r := PlaceAll(sizes, cfg, f, cursor, pieces);
      r.Ok? ==> PlaceCursor(sizes, cfg, f, cursor, pieces) == r.value.cursor
  {
    hide Choose, EstimatedChunkSize, WrappingAdd, PlannedFor;
  }

  lemma PieceMoves(sizes: seq<Result<u64>>, cfg: VaultConfig, f: FileId, s: Planning, piece: seq<byte>)
    requires s.next + 1 < U64_LIMIT
    ensures var r, now := Place(sizes, cfg, f, s, piece), PieceCursor(sizes, cfg, s, piece);
      if r.Err? then now == s.cursor
      else r.value.plan != [] && now == r.value.cursor == (r.value.plan[|r.value.plan| - 1].blob + 1) % |sizes|
  {
    hide Choose, EstimatedChunkSize;
  }

  /** The cursor is past the blob of the last piece that could be placed: of all of them, or of those before
      the first that could not, which leaves it as it is. */
  lemma {:induction false} CursorPastPlaced(sizes: seq<Result<u64>>, cfg: VaultConfig, f: FileId, cursor: nat,
                                            pieces: seq<seq<byte>>) returns (j: nat)
    requires |pieces| < U64_LIMIT
    ensures j <= |pieces| && PlaceAll(sizes, cfg, f, cursor, pieces[..j]).Ok?
    ensures if j == |pieces| then PlaceAll(sizes, cfg, f, cursor, pieces).Ok?
            else PlaceAll(sizes, cfg, f, cursor, pieces[..j + 1]).Err? && PlaceAll(sizes, cfg, f, cursor, pieces).Err?
    ensures var plan := PlaceAll(sizes, cfg, f, cursor, pieces[..j]).value.plan;
      |plan| == j && PlaceCursor(sizes, cfg, f, cursor, pieces)
                     == if plan == [] then cursor else (plan[j - 1].blob + 1) % |sizes|
  {
    hide Place, PieceCursor;
    if pieces == [] {
      j := 0;
    } else {
      var n, before := |pieces| - 1, pieces[..|pieces| - 1];
      var i := CursorPastPlaced(sizes, cfg, f, cursor, before);
      assert before[..i] == pieces[..i] && (i < n ==> before[..i + 1] == pieces[..i + 1]);
      PlacedCursor(sizes, cfg, f, cursor, before);
      PlaceAllCovers(sizes, cfg, f, cursor, before);
      PlaceAllCovers(sizes, cfg, f, cursor, pieces);
      assert pieces[..n + 1] == pieces;
      var s := PlaceAll(sizes, cfg, f, cursor, before);
      if s.Ok? {
        PieceMoves(sizes, cfg, f, s.value, pieces[n]);
      }
      j := if s.Ok? && PlaceAll(sizes, cfg, f, cursor, pieces).Ok? then n + 1 else i;
    }
  }

  /** Chunks of one blob are written in order of their numbers. */
  lemma {:induction false} GroupInOrder(plan: seq<Assigned>, k: nat, n: nat, f: FileId, pieces: seq<seq<byte>>)
    requires Covers(plan, n, f, pieces)
    ensures forall i, j :: 0 <= i < j < |Group(plan, k)| ==>
      Group(plan, k)[i].sequenceNumber < Group(plan, k)[j].sequenceNumber
    ensures forall i :: 0 <= i < |Group(plan, k)| ==> Group(plan, k)[i].sequenceNumber < |plan|
  {
    if plan == [] {
    } else {
      GroupInOrder(plan[..|plan| - 1], k, n, f, pieces[..|pieces| - 1]);
    }
  }

  /** Placing one more piece of a file. */
  lemma PlaceNext(sizes: seq<Result<u64>>, cfg: VaultConfig, f: FileId, cursor: nat, pieces: seq<seq<byte>>, i: nat)
    requires i < |pieces| && PlaceAll(sizes, cfg, f, cursor, pieces[..i]).Ok?
    ensures var s := PlaceAll(sizes, cfg, f, cursor, pieces[..i]).value;
      && PlaceAll(sizes, cfg, f, cursor, pieces[..i + 1]) == Place(sizes, cfg, f, s, pieces[i])
      && (Place(sizes, cfg, f, s, pieces[i]).Err? ==>
            && PlaceAll(sizes, cfg, f, cursor, pieces) == Err(Place(sizes, cfg, f, s, pieces[i]).error)
            && PlaceCursor(sizes, cfg, f, cursor, pieces) == PieceCursor(sizes, cfg, s, pieces[i]))
  {
    assert pieces[..i + 1][..i] == pieces[..i];
    hide Place, PieceCursor;
    if PlaceAll(sizes, cfg, f, cursor, pieces[..i + 1]).Err? {
      PlaceAllFails(sizes, cfg, f, cursor, pieces, i + 1);
      PlaceCursorFails(sizes, cfg, f, cursor, pieces, i + 1);
    }
  }

  lemma GroupNext(plan: seq<Assigned>, a: Assigned, k: nat)
    ensures Group(plan + [a], k) == Group(plan, k) + if k == a.blob then [a.chunk] else []
  {
    assert (plan + [a])[..|plan|] == plan;
  }

  lemma PieceCount(contents: seq<byte>, size: nat)
    requires size > 0 && |contents| < U64_LIMIT
    ensures |FilePieces(contents, size)| < U64_LIMIT
  {
    FilePiecesJoin(contents, size);
  }

  /** What a plan puts on each blob is within the bound, the completion entry apart; and the completion
      is too, unless its unchecked addition wraps. */
  lemma PlannedWithin(plan: seq<Assigned>, sizes: seq<Result<u64>>, cfg: VaultConfig, cursor: nat, f: FileId,
                      contents: seq<byte>)
    requires cfg.maxChunkSize > 0 && PlanFile(sizes, cfg, cursor, f, contents) == Ok(plan)
    ensures plan != [] && LastBlob(plan) < |sizes|
    ensures forall k :: 0 <= k < |sizes| && Touched(plan, k) ==>
      sizes[k].Ok? && sizes[k].value + PlannedBytes(plan, k) <= cfg.maxBlobSize
    ensures PlannedBytes(plan, LastBlob(plan)) + FILE_COMPLETE_ENTRY_WIRE_LEN < U64_LIMIT ==>
      WithinCapacity(sizes, cfg.maxBlobSize, plan)
  {
    PlanCovers(sizes, cfg, cursor, f, contents);
    LastBlobIsLast(plan);
    if cfg.splitFilesAcrossBlobs {
      hide PlanWhole, WithinCapacity, PlannedBytes, LastBlob, Touched, FilePieces, PlaceAll, Finalize;
      SplitWithinCapacity(sizes, cfg, cursor, f, contents);
      var pieces := FilePieces(contents, EffectiveChunkSize(cfg).value);
      PlaceAllAccounts(sizes, cfg, f, cursor, pieces);
    } else {
      hide PlanWhole, PlannedBytes, LastBlob, Touched, FilePieces;
      WholeWithinCapacity(sizes, cfg, cursor, f, contents);
    }
  }
}
