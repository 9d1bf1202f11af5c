/** What adding empty blobs changes in a plan, and when retrying with one more blob ever ends. */
module Growing {
  import opened Basics
  import opened IndexCodec
  import opened Planner
  import opened Placement

  /** The blobs' sizes once `m` empty blobs have been added. */
  function Grown(sizes: seq<Result<u64>>, m: nat): seq<Result<u64>> {
    sizes + seq(m, i requires 0 <= i < m => Ok(0))
  }

  ghost predicate AllSized(sizes: seq<Result<u64>>) {
    forall k :: 0 <= k < |sizes| ==> sizes[k].Ok?
  }

  /** The same plan, whatever the cursor. */
  ghost predicate SamePlan(a: Result<Planning>, b: Result<Planning>) {
    match (a, b)
    case (Ok(s), Ok(t)) => s.planned == t.planned && s.plan == t.plan && s.next == t.next
    case (Err(d), Err(e)) => d == e
    case _ => false
  }

  predicate FirstFit(cfg: VaultConfig) {
    cfg.splitFilesAcrossBlobs && !cfg.stripeChunksAcrossBlobs
  }

  lemma AroundZero(offset: nat, n: nat)
    requires offset < n
    ensures Around(0, offset, n) == offset
  {
  }

  lemma {:induction false} ScanGrown(sizes: seq<Result<u64>>, m: nat, planned: map<nat, u64>, extra: nat, max: nat,
                                     offset: nat)
    requires offset <= |sizes|
    requires Scan(sizes, planned, extra, max, 0, offset) != Err(NoWritableBlob)
    ensures Scan(Grown(sizes, m), planned, extra, max, 0, offset) == Scan(sizes, planned, extra, max, 0, offset)
    decreases |sizes| - offset
  {
    if offset < |sizes| {
      AroundZero(offset, |sizes|);
      AroundZero(offset, |sizes| + m);
      hide EstimatedAfter, Around;
      var after := EstimatedAfter(sizes[offset], PlannedFor(planned, offset), extra);
      if after.Ok? && after.value > max {
        ScanGrown(sizes, m, planned, extra, max, offset + 1);
      }
    }
  }

  lemma ChooseGrown(sizes: seq<Result<u64>>, m: nat, cfg: VaultConfig, a: nat, b: nat, planned: map<nat, u64>,
                    extra: nat)
    requires FirstFit(cfg) && Choose(sizes, cfg, a, planned, extra) != Err(NoWritableBlob)
    ensures Choose(Grown(sizes, m), cfg, b, planned, extra) == Choose(sizes, cfg, a, planned, extra)
  {
    ScanGrown(sizes, m, planned, extra, cfg.maxBlobSize, 0);
    hide Scan;
  }

  /** First fit places every chunk where it did before empty blobs were added. */
  lemma {:induction false} PlaceAllGrown(sizes: seq<Result<u64>>, m: nat, cfg: VaultConfig, f: FileId, a: nat, b: nat,
                                         pieces: seq<seq<byte>>)
    requires FirstFit(cfg) && PlaceAll(sizes, cfg, f, a, pieces) != Err(NoWritableBlob)
    ensures SamePlan(PlaceAll(sizes, cfg, f, a, pieces), PlaceAll(Grown(sizes, m), cfg, f, b, pieces))
  {
    if pieces == [] {
    } else {
      var before, piece := pieces[..|pieces| - 1], pieces[|pieces| - 1];
      PlaceAllGrown(sizes, m, cfg, f, a, b, before);
      var s, t := PlaceAll(sizes, cfg, f, a, before), PlaceAll(Grown(sizes, m), cfg, f, b, before);
      var bytes := EstimatedChunkSize(|piece|);
      if s.Ok? && bytes.Ok? {
        hide Choose, EstimatedChunkSize, Grown;
        ChooseGrown(sizes, m, cfg, s.value.cursor, t.value.cursor, s.value.planned, bytes.value);
      }
    }
  }

  lemma {:induction false} LastKeyGrown(planned: map<nat, u64>, n: nat, m: nat)
    requires forall k :: k in planned ==> k < n
    ensures LastKey(planned, n + m) == LastKey(planned, n)
  {
    if m > 0 {
      LastKeyGrown(planned, n, m - 1);
    }
  }

  lemma {:induction false} FinalCheckGrown(sizes: seq<Result<u64>>, m: nat, planned: map<nat, u64>, max: nat, k: nat)
    requires k <= |sizes| + m && forall j :: j in planned ==> j < |sizes|
    ensures FinalCheck(Grown(sizes, m), planned, max, k)
         == if k <= |sizes| then FinalCheck(sizes, planned, max, k) else Ok(())
    decreases |sizes| + m - k
  {
    if k < |sizes| + m {
      FinalCheckGrown(sizes, m, planned, max, k + 1);
    }
  }

  lemma FinalizeGrown(sizes: seq<Result<u64>>, m: nat, cfg: VaultConfig, planned: map<nat, u64>)
    requires forall k :: k in planned ==> k < |sizes|
    ensures Finalize(Grown(sizes, m), cfg, planned) == Finalize(sizes, cfg, planned)
  {
    LastKeyGrown(planned, |sizes|, m);
    var last := LastKey(planned, |sizes|);
    if last.Some? {
      FinalCheckGrown(sizes, m, planned[last.value := WrappingAdd(planned[last.value], FILE_COMPLETE_ENTRY_WIRE_LEN)],
                      cfg.maxBlobSize, 0);
    }
  }

  /** Once every chunk has a place, empty blobs change nothing: not the plan, and not a failure of the
      final check either. */
  lemma PlanStable(sizes: seq<Result<u64>>, m: nat, cfg: VaultConfig, a: nat, b: nat, f: FileId, contents: seq<byte>)
    requires FirstFit(cfg) && EffectiveChunkSize(cfg).Ok?
    requires PlaceAll(sizes, cfg, f, a, FilePieces(contents, EffectiveChunkSize(cfg).value)) != Err(NoWritableBlob)
    ensures PlanSplit(Grown(sizes, m), cfg, b, f, contents) == PlanSplit(sizes, cfg, a, f, contents)
  {
    hide PlaceAll, Finalize, FilePieces, EffectiveChunkSize, Grown;
    var pieces := FilePieces(contents, EffectiveChunkSize(cfg).value);
    PlaceAllGrown(sizes, m, cfg, f, a, b, pieces);
    PlaceAllAccounts(sizes, cfg, f, a, pieces);
    var s := PlaceAll(sizes, cfg, f, a, pieces);
    if s.Ok? {
      FinalizeGrown(sizes, m, cfg, s.value.planned);
    }
  }

  lemma PlanStands(sizes: seq<Result<u64>>, m: nat, cfg: VaultConfig, a: nat, b: nat, f: FileId, contents: seq<byte>)
    requires FirstFit(cfg) && EffectiveChunkSize(cfg).Ok?
    requires PlanSplit(sizes, cfg, a, f, contents) != Err(NoWritableBlob)
    ensures PlanSplit(Grown(sizes, m), cfg, b, f, contents) == PlanSplit(sizes, cfg, a, f, contents)
  {
    PlanStable(sizes, m, cfg, a, b, f, contents);
  }

  // A fresh blob for every chunk

  lemma FreePosition(taken: set<nat>, lo: nat, m: nat) returns (k: nat)
    requires |taken| < m
    ensures lo <= k < lo + m && k !in taken
  {
    var range := Range(lo, m);
    if range <= taken {
      SubsetSize(range, taken);
      assert false;
    }
    k :| k in range && k !in taken;
  }

  lemma {:induction false} FewPlanned(sizes: seq<Result<u64>>, cfg: VaultConfig, f: FileId, cursor: nat,
                                      pieces: seq<seq<byte>>)
    ensures var r := PlaceAll(sizes, cfg, f, cursor, pieces);
      r.Ok? ==> |r.value.planned.Keys| <= |pieces|
  {
    if pieces == [] {
    } else {
      hide Choose;
      FewPlanned(sizes, cfg, f, cursor, pieces[..|pieces| - 1]);
      var r, s := PlaceAll(sizes, cfg, f, cursor, pieces), PlaceAll(sizes, cfg, f, cursor, pieces[..|pieces| - 1]);
      if r.Ok? {
        var k := r.value.plan[|r.value.plan| - 1].blob;
        assert r.value.planned.Keys == s.value.planned.Keys + {k};
      }
    }
  }

  lemma FreshBlobHasRoom(sizes: seq<Result<u64>>, m: nat, cfg: VaultConfig, cursor: nat, planned: map<nat, u64>,
                         extra: nat)
    requires AllSized(sizes) && FirstFit(cfg) && |planned.Keys| < m && extra <= cfg.maxBlobSize
    ensures Choose(Grown(sizes, m), cfg, cursor, planned, extra) != Err(NoWritableBlob)
  {
    var grown := Grown(sizes, m);
    var k := FreePosition(planned.Keys, |sizes|, m);
    assert !IsFull(grown, planned, extra, cfg.maxBlobSize, k);
    hide IsFull, Scan;
    ScanFails(grown, planned, extra, cfg.maxBlobSize, 0);
  }

  /** With an empty blob for every chunk, every chunk has a place. */
  lemma {:induction false} PlaceAllRoomy(sizes: seq<Result<u64>>, m: nat, cfg: VaultConfig, f: FileId, cursor: nat,
                                         pieces: seq<seq<byte>>)
    requires AllSized(sizes) && FirstFit(cfg) && |pieces| <= m && EffectiveChunkSize(cfg).Ok?
    requires forall i :: 0 <= i < |pieces| ==> |pieces[i]| <= EffectiveChunkSize(cfg).value
    ensures PlaceAll(Grown(sizes, m), cfg, f, cursor, pieces) != Err(NoWritableBlob)
  {
    if pieces == [] {
    } else {
      hide Choose, Grown;
      var before := pieces[..|pieces| - 1];
      PlaceAllRoomy(sizes, m, cfg, f, cursor, before);
      FewPlanned(Grown(sizes, m), cfg, f, cursor, before);
      var s, bytes := PlaceAll(Grown(sizes, m), cfg, f, cursor, before), EstimatedChunkSize(|pieces[|pieces| - 1]|);
      if s.Ok? && bytes.Ok? {
        FreshBlobHasRoom(sizes, m, cfg, s.value.cursor, s.value.planned, bytes.value);
      }
    }
  }

  // Retrying

  /** The first-fit placement of a file's chunks once an empty blob has been added for every chunk. */
  function RoomyPlacement(sizes: seq<Result<u64>>, cfg: VaultConfig, cursor: nat, f: FileId, contents: seq<byte>)
      : Result<Planning>
    requires EffectiveChunkSize(cfg).Ok?
  {
    var pieces := FilePieces(contents, EffectiveChunkSize(cfg).value);
    PlaceAll(Grown(sizes, |pieces|), cfg, f, cursor, pieces)
  }

  /** The sizes that placement is made from. */
  function RoomySizes(sizes: seq<Result<u64>>, cfg: VaultConfig, contents: seq<byte>): seq<Result<u64>>
    requires EffectiveChunkSize(cfg).Ok?
  {
    Grown(sizes, |FilePieces(contents, EffectiveChunkSize(cfg).value)|)
  }

  /** With first fit every chunk has a place once there is an empty blob for each, and then the plan is
      refused exactly when its last blob has no room for the completion entry besides its chunks. */
  lemma RoomyPlan(sizes: seq<Result<u64>>, cfg: VaultConfig, cursor: nat, f: FileId, contents: seq<byte>)
    requires AllSized(sizes) && FirstFit(cfg) && EffectiveChunkSize(cfg).Ok?
    ensures var grown, s := RoomySizes(sizes, cfg, contents), RoomyPlacement(sizes, cfg, cursor, f, contents);
      && s != Err(NoWritableBlob)
      && (PlanSplit(grown, cfg, cursor, f, contents) == Err(NoWritableBlob)
          <==> s.Ok? && CompletionRefused(grown, cfg.maxBlobSize, s.value.plan))
      && (PlanSplit(grown, cfg, cursor, f, contents).Ok?
          <==> s.Ok? && CompletionFits(grown, cfg.maxBlobSize, s.value.plan))
  {
    var size := EffectiveChunkSize(cfg).value;
    var pieces := FilePieces(contents, size);
    var grown := RoomySizes(sizes, cfg, contents);
    FilePiecesJoin(contents, size);
    PlaceAllRoomy(sizes, |pieces|, cfg, f, cursor, pieces);
    PlaceAllCovers(grown, cfg, f, cursor, pieces);
    PlaceAllAccounts(grown, cfg, f, cursor, pieces);
    hide PlaceAll, FilePieces, EffectiveChunkSize, Grown, Finalize, Accounts, Covers, AllSized;
    var s := RoomyPlacement(sizes, cfg, cursor, f, contents);
    if s.Ok? {
      CoveredPlan(s.value.plan, |grown|, f, pieces);
      FinalizeMeans(grown, cfg, s.value);
      hide Touched, LastBlob;
    }
  }

  lemma CoveredPlan(plan: seq<Assigned>, n: nat, f: FileId, pieces: seq<seq<byte>>)
    requires Covers(plan, n, f, pieces) && pieces != []
    ensures plan != []
  {
  }

  /** However many empty blobs are added, a file is planned as with one for every chunk, or there are
      fewer and no writable blob. */
  lemma RetryAnswer(sizes: seq<Result<u64>>, cfg: VaultConfig, cursor: nat, f: FileId, contents: seq<byte>, m: nat,
                    c: nat)
    requires AllSized(sizes) && FirstFit(cfg) && EffectiveChunkSize(cfg).Ok?
    requires m >= |FilePieces(contents, EffectiveChunkSize(cfg).value)|
             || PlanSplit(Grown(sizes, m), cfg, c, f, contents) != Err(NoWritableBlob)
    ensures PlanSplit(RoomySizes(sizes, cfg, contents), cfg, cursor, f, contents)
         == PlanSplit(Grown(sizes, m), cfg, c, f, contents)
  {
    hide *;
    var pieces := FilePieces(contents, EffectiveChunkSize(cfg).value);
    var n := |pieces|;
    RoomyIs(sizes, cfg, contents);
    FilePiecesJoin(contents, EffectiveChunkSize(cfg).value);
    if m < n {
      GrownTwice(sizes, m, n - m);
      PlanStands(Grown(sizes, m), n - m, cfg, c, cursor, f, contents);
    } else {
      GrownTwice(sizes, n, m - n);
      PlaceAllRoomy(sizes, n, cfg, f, cursor, pieces);
      PlanStable(Grown(sizes, n), m - n, cfg, cursor, c, f, contents);
    }
  }

  lemma RoomyIs(sizes: seq<Result<u64>>, cfg: VaultConfig, contents: seq<byte>)
    requires EffectiveChunkSize(cfg).Ok?
    ensures RoomySizes(sizes, cfg, contents) == Grown(sizes, |FilePieces(contents, EffectiveChunkSize(cfg).value)|)
  {
  }

  /** First-fit retry, the cursor being anything at each attempt: adding empty blobs is refused for ever
      exactly when the first-fit placement with a blob for every chunk leaves its last blob no room for
      the completion entry; and the file is ever planned exactly when it leaves that room. */
  lemma RetryEndsIff(sizes: seq<Result<u64>>, cfg: VaultConfig, cursor: nat, f: FileId, contents: seq<byte>)
    requires AllSized(sizes) && FirstFit(cfg) && EffectiveChunkSize(cfg).Ok?
    ensures var grown, s := RoomySizes(sizes, cfg, contents), RoomyPlacement(sizes, cfg, cursor, f, contents);
      && ((forall m: nat, c: nat :: PlanSplit(Grown(sizes, m), cfg, c, f, contents) == Err(NoWritableBlob))
          <==> s.Ok? && CompletionRefused(grown, cfg.maxBlobSize, s.value.plan))
      && ((exists m: nat, c: nat :: PlanSplit(Grown(sizes, m), cfg, c, f, contents).Ok?)
          <==> s.Ok? && CompletionFits(grown, cfg.maxBlobSize, s.value.plan))
  {
    hide *;
    RoomyPlan(sizes, cfg, cursor, f, contents);
    RoomyIs(sizes, cfg, contents);
    var n := |FilePieces(contents, EffectiveChunkSize(cfg).value)|;
    assert PlanSplit(Grown(sizes, n), cfg, cursor, f, contents)
        == PlanSplit(RoomySizes(sizes, cfg, contents), cfg, cursor, f, contents);
    forall m: nat, c: nat
      ensures PlanSplit(Grown(sizes, m), cfg, c, f, contents) == Err(NoWritableBlob)
           || PlanSplit(Grown(sizes, m), cfg, c, f, contents) == PlanSplit(Grown(sizes, n), cfg, cursor, f, contents)
    {
      if PlanSplit(Grown(sizes, m), cfg, c, f, contents) != Err(NoWritableBlob) {
        RetryAnswer(sizes, cfg, cursor, f, contents, m, c);
      }
    }
  }

  lemma GrownTwice(sizes: seq<Result<u64>>, m: nat, more: nat)
    ensures Grown(Grown(sizes, m), more) == Grown(sizes, m + more)
  {
  }

  /** Retrying can fail for ever: two chunks of 75 bytes fill an empty blob of 400 but for the
      completion entry, which first fit then always charges to that same blob. */
  lemma RetryCanLoop(f: FileId, contents: seq<byte>, cursor: nat, m: nat)
    requires |contents| == 150
    ensures PlanSplit(Grown([Ok(0)], m), VaultConfig(75, 400, true, false, true), cursor, f, contents) == Err(NoWritableBlob)
  {
    var cfg := VaultConfig(75, 400, true, false, true);
    var a, b := contents[..75], contents[75..];
    assert Pieces(b, 75) == [b] by { assert b[..75] == b && b[75..] == []; }
    assert FilePieces(contents, 75) == [a, b];
    var sizes: seq<Result<u64>> := [Ok(0)];
    PlaceAllTwo(sizes, cfg, f, cursor, a, b);
    PlanStable(sizes, m, cfg, cursor, cursor, f, contents);
  }

  lemma PlaceAllTwo(sizes: seq<Result<u64>>, cfg: VaultConfig, f: FileId, cursor: nat, a: seq<byte>, b: seq<byte>)
    requires sizes == [Ok(0)] && cfg == VaultConfig(75, 400, true, false, true) && |a| == |b| == 75
    ensures var r := PlaceAll(sizes, cfg, f, cursor, [a, b]);
      r.Ok? && r.value.planned == map[0 := 376] && Finalize(sizes, cfg, r.value.planned) == Err(NoWritableBlob)
  {
    assert [a, b][..1] == [a] && [a][..0] == [];
    var none := PlaceAll(sizes, cfg, f, cursor, []).value;
    var one := Place(sizes, cfg, f, none, a).value;
    assert one.planned == map[0 := 188];
    var two := Place(sizes, cfg, f, one, b).value;
    assert two.planned == map[0 := 376];
  }

  /** Whole-file retry: if no blob is writable, then with one empty blob added the file goes there. */
  lemma WholeRetryEnds(sizes: seq<Result<u64>>, cfg: VaultConfig, a: nat, b: nat, f: FileId, contents: seq<byte>)
    requires AllSized(sizes) && sizes != [] && cfg.maxChunkSize > 0 && !cfg.splitFilesAcrossBlobs
    requires |contents| < U64_LIMIT
    requires PlanWhole(sizes, cfg, a, f, contents) == Err(NoWritableBlob)
    ensures PlanWhole(sizes + [Ok(0)], cfg, b, f, contents).Ok?
  {
    hide EstimatedWriteSize, CeilDiv, FilePieces, AssignAll, Choose;
    var size := EstimatedWriteSize(|contents|, Max(1, CeilDiv(|contents|, cfg.maxChunkSize)));
    var pieces := FilePieces(contents, cfg.maxChunkSize);
    FilePiecesJoin(contents, cfg.maxChunkSize);
    AssignAllOk(f, pieces);
    EstimateError(|contents|, Max(1, CeilDiv(|contents|, cfg.maxChunkSize)));
    FullBlobsStayFull(sizes, cfg, a, size.value);
    EmptyBlobChosen(sizes, cfg, b, size.value);
  }

  /** In whole-file mode a file that exceeds no empty blob is never refused beside one. */
  lemma WholeNeverRefused(sizes: seq<Result<u64>>, cfg: VaultConfig, cursor: nat, f: FileId, contents: seq<byte>, k: nat)
    requires AllSized(sizes) && k < |sizes| && sizes[k] == Ok(0)
    requires cfg.maxChunkSize > 0 && !cfg.splitFilesAcrossBlobs
    ensures PlanWhole(sizes, cfg, cursor, f, contents) != Err(NoWritableBlob)
  {
    hide EstimatedWriteSize, CeilDiv, FilePieces, AssignAll, Scan;
    var size := EstimatedWriteSize(|contents|, Max(1, CeilDiv(|contents|, cfg.maxChunkSize)));
    EstimateError(|contents|, Max(1, CeilDiv(|contents|, cfg.maxChunkSize)));
    if size.Ok? {
      ScanFails(sizes, NOTHING_PLANNED, size.value, cfg.maxBlobSize, Start(cfg, cursor, |sizes|));
      assert IsFull(sizes, NOTHING_PLANNED, size.value, cfg.maxBlobSize, k) <==> size.value > cfg.maxBlobSize;
    }
    forall b: nat ensures AssignAll(b, f, FilePieces(contents, cfg.maxChunkSize)) != Err(NoWritableBlob) {
      AssignError(b, f, FilePieces(contents, cfg.maxChunkSize));
    }
  }

  lemma NoChunkSize(sizes: seq<Result<u64>>, cfg: VaultConfig, cursor: nat, f: FileId, contents: seq<byte>)
    requires EffectiveChunkSize(cfg).Err?
    ensures PlanSplit(sizes, cfg, cursor, f, contents) == Err(InvalidConfig)
  {
  }

  lemma {:induction false} AssignError(k: nat, f: FileId, pieces: seq<seq<byte>>)
    ensures AssignAll(k, f, pieces).Err? ==> AssignAll(k, f, pieces).error == IntegerOverflow
  {
    if pieces != [] {
      AssignError(k, f, pieces[..|pieces| - 1]);
    }
  }

  lemma GrownSized(sizes: seq<Result<u64>>, m: nat)
    requires AllSized(sizes)
    ensures AllSized(Grown(sizes, m)) && |Grown(sizes, m)| == |sizes| + m && (m > 0 ==> Grown(sizes, m)[|sizes|] == Ok(0))
    ensures Grown(sizes, m + 1) == Grown(sizes, m) + [Ok(0)] && Grown(sizes, 0) == sizes
  {
  }

  lemma EstimateError(plaintextLen: nat, count: nat)
    ensures EstimatedWriteSize(plaintextLen, count).Err? ==>
              EstimatedWriteSize(plaintextLen, count).error == IntegerOverflow
  {
  }

  lemma EmptyBlobChosen(sizes: seq<Result<u64>>, cfg: VaultConfig, cursor: nat, extra: nat)
    requires extra <= cfg.maxBlobSize && !cfg.splitFilesAcrossBlobs
    requires forall k :: 0 <= k < |sizes| ==> IsFull(sizes + [Ok(0)], NOTHING_PLANNED, extra, cfg.maxBlobSize, k)
    ensures Choose(sizes + [Ok(0)], cfg, cursor, NOTHING_PLANNED, extra) == Ok(|sizes|)
  {
    hide Scan, Around, Start;
    var grown := sizes + [Ok(0)];
    var start := Start(cfg, cursor, |grown|);
    assert HasRoom(grown, NOTHING_PLANNED, extra, cfg.maxBlobSize, |sizes|);
    var o := ScanFindsFirst(grown, NOTHING_PLANNED, extra, cfg.maxBlobSize, start, 0);
    var last := AroundMeets(start, |grown|, |sizes|);
    assert o <= last;
    var k := Around(start, o, |grown|);
    assert k == |sizes| || IsFull(grown, NOTHING_PLANNED, extra, cfg.maxBlobSize, k);
  }

  lemma AssignAllOk(f: FileId, pieces: seq<seq<byte>>)
    requires |pieces| < U64_LIMIT
    ensures forall k: nat :: AssignAll(k, f, pieces).Ok?
  {
    forall k: nat ensures AssignAll(k, f, pieces).Ok? {
      AssignAllCovers(k, k + 1, f, pieces);
    }
  }

  lemma FullBlobsStayFull(sizes: seq<Result<u64>>, cfg: VaultConfig, cursor: nat, extra: nat)
    requires AllSized(sizes) && sizes != [] && !cfg.splitFilesAcrossBlobs
    requires Choose(sizes, cfg, cursor, NOTHING_PLANNED, extra) == Err(NoWritableBlob)
    ensures extra <= cfg.maxBlobSize
    ensures forall k :: 0 <= k < |sizes| ==> IsFull(sizes + [Ok(0)], NOTHING_PLANNED, extra, cfg.maxBlobSize, k)
  {
    hide Scan;
    ScanFails(sizes, NOTHING_PLANNED, extra, cfg.maxBlobSize, Start(cfg, cursor, |sizes|));
    forall k | 0 <= k < |sizes| ensures IsFull(sizes + [Ok(0)], NOTHING_PLANNED, extra, cfg.maxBlobSize, k) {
      assert IsFull(sizes, NOTHING_PLANNED, extra, cfg.maxBlobSize, k);
    }
  }
}
