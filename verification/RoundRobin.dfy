/** Retrying in striped split mode: each refused attempt moves the cursor on, until the chunks reach the new blobs. */
module RoundRobin {
  import opened Basics
  import opened IndexCodec
  import opened Planner
  import opened Placement
  import opened Striping
  import opened Growing

  /** The position `steps` after `start`, going round at most once. */
  function At(start: nat, steps: nat, n: nat): nat {
    if start + steps < n then start + steps else start + steps - n
  }

  lemma AroundIsAt(start: nat, offset: nat, n: nat)
    requires start < n && offset < n
    ensures Around(start, offset, n) == At(start, offset, n)
    ensures At(start, offset, n) < n && At(start, offset + 1, n) < n && Distance(start, At(start, offset, n), n) == offset
  {
  }

  lemma AtNext(start: nat, steps: nat, n: nat)
    requires start < n && steps < n
    ensures (At(start, steps, n) + 1) % n == At(start, steps + 1, n)
  {
  }

  lemma DistanceAt(start: nat, k: nat, n: nat)
    requires start < n && k < n
    ensures 0 <= Distance(start, k, n) < n && At(start, Distance(start, k, n), n) == k
  {
  }

  /** Before its first round is complete the march has touched exactly the empty blobs it has passed, each
      with one chunk of at most `most` bytes.  The blobs from position `first` on are empty. */
  ghost predicate Marched(first: nat, n: nat, start: nat, most: nat, s: Planning, steps: nat) {
    && start < n && |s.plan| <= steps <= n
    && s.cursor % n == At(start, steps, n) && (s.plan != [] ==> s.cursor < n)
    && |s.planned.Keys| <= |s.plan|
    && forall q :: first <= q < n ==>
         && (q in s.planned <==> Distance(start, q, n) < steps)
         && PlannedFor(s.planned, q) <= most
  }

  lemma MarchStarts(first: nat, n: nat, cursor: nat, most: nat)
    requires n > 0
    ensures Marched(first, n, cursor % n, most, Planning(cursor, map[], [], 0), 0)
  {
  }

  /** An empty blob that is not planned for has room for any chunk. */
  lemma EmptyHasRoom(sizes: seq<Result<u64>>, e: nat, planned: map<nat, u64>, extra: nat, max: u64, q: nat)
    requires |sizes| <= q < |sizes| + e && q !in planned && extra <= max
    ensures !IsFull(Grown(sizes, e), planned, extra, max, q)
  {
  }

  /** A position not yet passed is met as many steps on as it lies further from the start. */
  lemma MarchMeets(start: nat, steps: nat, k: nat, n: nat)
    requires start < n && k < n && steps <= n
    ensures At(start, steps, n) < n && 0 <= Distance(start, k, n) < n
    ensures steps <= Distance(start, k, n) ==> Around(At(start, steps, n), Distance(start, k, n) - steps, n) == k
  {
    if steps <= Distance(start, k, n) {
      AroundIsAt(At(start, steps, n), Distance(start, k, n) - steps, n);
    }
  }

  /** A scan does not pass an untouched new blob. */
  lemma ScanStops(sizes: seq<Result<u64>>, e: nat, max: u64, start: nat, most: nat, s: Planning, steps: nat, extra: u64,
                  o: nat, n: nat, k: nat)
    requires n == |sizes| + e && Marched(|sizes|, n, start, most, s, steps) && extra <= max
    requires |sizes| <= k < n && k !in s.planned && o <= n
    requires forall p :: 0 <= p < o ==> IsFull(Grown(sizes, e), s.planned, extra, max, Around(At(start, steps, n), p, n))
    ensures steps + o <= Distance(start, k, n) < n
  {
    MarchMeets(start, steps, k, n);
    EmptyHasRoom(sizes, e, s.planned, extra, max, k);
    hide IsFull, At, Distance, Around, Grown;
  }

  /** While some new blob is untouched, the next choice is no further on than the first such blob. */
  lemma MarchChooses(sizes: seq<Result<u64>>, e: nat, cfg: VaultConfig, start: nat, most: nat, s: Planning, steps: nat,
                     extra: u64) returns (o: nat)
    requires AllSized(sizes) && Striped(cfg) && |s.plan| < e && extra <= cfg.maxBlobSize
    requires Marched(|sizes|, |sizes| + e, start, most, s, steps)
    ensures var grown, n := Grown(sizes, e), |sizes| + e;
      && steps + o < n && Choose(grown, cfg, s.cursor, s.planned, extra) != Err(NoWritableBlob)
      && (Choose(grown, cfg, s.cursor, s.planned, extra).Ok? ==>
            && Choose(grown, cfg, s.cursor, s.planned, extra) == Ok(At(start, steps + o, n))
            && forall q :: |sizes| <= q < n && steps <= Distance(start, q, n) < steps + o ==> q in s.planned)
  {
    var grown, n := Grown(sizes, e), |sizes| + e;
    var from := At(start, steps, n);
    var q := FreePosition(s.planned.Keys, |sizes|, e);
    o := ScanFindsFirst(grown, s.planned, extra, cfg.maxBlobSize, from, 0);
    hide Scan, IsFull, HasRoom, EstimatedAfter, Around, At, Distance, Grown, AllSized;
    GrownSized(sizes, e);
    forall k | |sizes| <= k < n && k !in s.planned ensures steps + o <= Distance(start, k, n) < n {
      ScanStops(sizes, e, cfg.maxBlobSize, start, most, s, steps, extra, o, n, k);
    }
    assert steps + o <= Distance(start, q, n) < n;
    AroundFurther(start, steps, o, n);
    AfterSized(grown, s.planned, extra, At(start, steps + o, n));
  }

  lemma AroundFurther(start: nat, steps: nat, o: nat, n: nat)
    requires start < n && steps + o < n
    ensures Around(At(start, steps, n), o, n) == At(start, steps + o, n) < n
  {
    AroundIsAt(At(start, steps, n), o, n);
  }

  lemma AfterSized(sizes: seq<Result<u64>>, planned: map<nat, u64>, extra: nat, k: nat)
    requires AllSized(sizes) && k < |sizes|
    ensures var after := EstimatedAfter(sizes[k], PlannedFor(planned, k), extra);
      after.Err? ==> after.error == IntegerOverflow
  {
    AfterError(sizes[k], PlannedFor(planned, k), extra);
  }

  /** Placing one more chunk goes on with the march. */
  lemma MarchGoesOn(sizes: seq<Result<u64>>, e: nat, cfg: VaultConfig, f: FileId, start: nat, most: nat, s: Planning,
                    steps: nat, piece: seq<byte>) returns (now: nat)
    requires AllSized(sizes) && Striped(cfg) && |s.plan| < e && WireSize(|piece|) <= most <= cfg.maxBlobSize
    requires Marched(|sizes|, |sizes| + e, start, most, s, steps)
    ensures var r := Place(Grown(sizes, e), cfg, f, s, piece);
      && r != Err(NoWritableBlob)
      && (r.Ok? ==> Marched(|sizes|, |sizes| + e, start, most, r.value, now))
  {
    var n, extra := |sizes| + e, WireSize(|piece|);
    var o := MarchChooses(sizes, e, cfg, start, most, s, steps, extra);
    now := steps + o + 1;
    hide Choose, Grown, Marched, At, Distance;
    var r := Place(Grown(sizes, e), cfg, f, s, piece);
    if r.Ok? {
      AtNext(start, steps + o, n);
      MarchStep(|sizes|, n, start, most, s, steps, o, r.value, extra);
    }
  }

  lemma MarchStep(first: nat, n: nat, start: nat, most: nat, s: Planning, steps: nat, o: nat, next: Planning, extra: u64)
    requires Marched(first, n, start, most, s, steps) && start < n && steps + o < n && extra <= most
    requires var k := At(start, steps + o, n);
      next.planned == s.planned[k := WrappingAdd(PlannedFor(s.planned, k), extra)]
    requires |next.plan| == |s.plan| + 1 && next.cursor == At(start, steps + o + 1, n)
    requires forall q :: first <= q < n && steps <= Distance(start, q, n) < steps + o ==> q in s.planned
    ensures Marched(first, n, start, most, next, steps + o + 1)
  {
    var k := At(start, steps + o, n);
    AroundIsAt(start, steps + o, n);
    assert next.planned.Keys == s.planned.Keys + {k};
    hide At, WrappingAdd;
    forall q | first <= q < n
      ensures q in next.planned <==> Distance(start, q, n) < steps + o + 1
      ensures PlannedFor(next.planned, q) <= most
    {
      DistanceAt(start, q, n);
      if q == k {
        FirstCharge(extra);
      }
    }
    SmallRemainder(At(start, steps + o + 1, n), n);
  }

  lemma FirstCharge(extra: u64)
    ensures WrappingAdd(0, extra) == extra
  {
  }

  lemma SmallRemainder(k: nat, n: nat)
    requires k < n
    ensures k % n == k
  {
  }

  /** With a new blob for every chunk, every chunk has a place within one round. */
  lemma {:induction false} MarchAll(sizes: seq<Result<u64>>, e: nat, cfg: VaultConfig, f: FileId, cursor: nat,
                                    most: nat, pieces: seq<seq<byte>>) returns (steps: nat)
    requires AllSized(sizes) && Striped(cfg) && |pieces| <= e && 0 < e && most <= cfg.maxBlobSize
    requires forall i :: 0 <= i < |pieces| ==> WireSize(|pieces[i]|) <= most
    ensures var n, r := |sizes| + e, PlaceAll(Grown(sizes, e), cfg, f, cursor, pieces);
      && r != Err(NoWritableBlob)
      && (r.Ok? ==> |r.value.plan| == |pieces| && Marched(|sizes|, n, cursor % n, most, r.value, steps))
  {
    var n, grown := |sizes| + e, Grown(sizes, e);
    hide Marched, Place, Grown, AllSized;
    if pieces == [] {
      MarchStarts(|sizes|, n, cursor, most);
      steps := 0;
    } else {
      var before, piece := pieces[..|pieces| - 1], pieces[|pieces| - 1];
      steps := MarchAll(sizes, e, cfg, f, cursor, most, before);
      PlaceAllCovers(grown, cfg, f, cursor, pieces);
      var s := PlaceAll(grown, cfg, f, cursor, before);
      if s.Ok? {
        steps := MarchGoesOn(sizes, e, cfg, f, cursor % n, most, s.value, steps, piece);
      }
    }
  }

  /** A new blob's one chunk leaves room for the completion, so a refused plan has its last blob among the
      others. */
  lemma RefusedLast(sizes: seq<Result<u64>>, e: nat, max: u64, plan: seq<Assigned>, most: nat)
    requires CompletionRefused(Grown(sizes, e), max, plan) && most + FILE_COMPLETE_ENTRY_WIRE_LEN <= max
    requires |sizes| <= LastBlob(plan) < |sizes| + e ==> PlannedBytes(plan, LastBlob(plan)) <= most
    ensures LastBlob(plan) < |sizes|
  {
    hide PlannedBytes, LastBlob;
    var last := LastBlob(plan);
    if |sizes| <= last {
      assert Grown(sizes, e)[last] == Ok(0);
      SmallRemainder(PlannedBytes(plan, last) + FILE_COMPLETE_ENTRY_WIRE_LEN, U64_LIMIT);
    }
  }

  /** A march that has not come to the new blobs ends before them. */
  lemma MarchEnds(first: nat, n: nat, start: nat, most: nat, s: Planning, steps: nat)
    requires Marched(first, n, start, most, s, steps) && first < n && s.plan != []
    requires forall q :: first <= q < n ==> q !in s.planned
    ensures start + |s.plan| <= s.cursor <= first
  {
    assert first !in s.planned && (first < start ==> start !in s.planned);
    SmallRemainder(s.cursor, n);
  }

  lemma RefusedMarch(sizes: seq<Result<u64>>, e: nat, cfg: VaultConfig, start: nat, most: nat, s: Planning, steps: nat)
    requires Marched(|sizes|, |sizes| + e, start, most, s, steps) && s.plan != [] && 0 < e
    requires Accounts(Grown(sizes, e), cfg, s) && most + FILE_COMPLETE_ENTRY_WIRE_LEN <= cfg.maxBlobSize
    requires CompletionRefused(Grown(sizes, e), cfg.maxBlobSize, s.plan)
    ensures start + |s.plan| <= s.cursor <= |sizes|
  {
    LastBlobIsLast(s.plan);
    hide LastBlob, Touched, PlannedBytes, CompletionRefused, Distance, At;
    RefusedLast(sizes, e, cfg.maxBlobSize, s.plan, most);
    MarchEnds(|sizes|, |sizes| + e, start, most, s, steps);
  }

  /** An attempt with a new blob for every chunk that is refused has put all of them on the other blobs, and
      has moved the cursor on by as many places at least. */
  lemma RefusedAttempt(sizes: seq<Result<u64>>, e: nat, cfg: VaultConfig, cursor: nat, f: FileId, contents: seq<byte>)
    requires AllSized(sizes) && Striped(cfg) && cfg.maxChunkSize > 0 && EffectiveChunkSize(cfg).Ok?
    requires |FilePieces(contents, EffectiveChunkSize(cfg).value)| <= e
    requires PlanSplit(Grown(sizes, e), cfg, cursor, f, contents) == Err(NoWritableBlob)
    ensures cursor % (|sizes| + e) + |FilePieces(contents, EffectiveChunkSize(cfg).value)|
         <= CursorAfter(Grown(sizes, e), cfg, cursor, f, contents) <= |sizes|
  {
    var size := EffectiveChunkSize(cfg).value;
    var pieces, grown := FilePieces(contents, size), Grown(sizes, e);
    var most := size + CHUNK_FRAME_OVERHEAD + CHUNK_ENTRY_WIRE_LEN;
    FilePiecesJoin(contents, size);
    hide EffectiveChunkSize, FilePieces, Grown, AllSized, PlaceAll, Marched, Finalize, Accounts, PlaceCursor,
         CompletionRefused, CompletionFits;
    var steps := MarchAll(sizes, e, cfg, f, cursor, most, pieces);
    var s := PlaceAll(grown, cfg, f, cursor, pieces);
    PlaceAllAccounts(grown, cfg, f, cursor, pieces);
    PlacedCursor(grown, cfg, f, cursor, pieces);
    FinalizeMeans(grown, cfg, s.value);
    RefusedMarch(sizes, e, cfg, cursor % (|sizes| + e), most, s.value, steps);
  }

  // Retrying

  /** The cursor once `n` attempts have been refused, an empty blob having been added after each. */
  function CursorAt(sizes: seq<Result<u64>>, cfg: VaultConfig, cursor: nat, f: FileId, contents: seq<byte>, n: nat): nat
    requires cfg.maxChunkSize > 0
  {
    if n == 0 then cursor
    else CursorAfter(Grown(sizes, n - 1), cfg, CursorAt(sizes, cfg, cursor, f, contents, n - 1), f, contents)
  }

  /** How many new blobs are enough for `chunks` chunks beside `blobs` blobs. */
  function Enough(chunks: nat, blobs: nat): nat
    requires chunks > 0
  {
    chunks + blobs / chunks
  }

  /** Where the cursor stands after `n` refused attempts: once there is a new blob for every chunk, each
      attempt moves it on by a place for every chunk, and it does not come to the new blobs. */
  ghost predicate Pushed(chunks: nat, blobs: nat, n: nat, cursor: nat) {
    n > chunks ==> (n - chunks) * chunks <= cursor <= blobs
  }

  /** The attempt with `n` new blobs is refused for want of a writable one, those before it having been refused. */
  ghost predicate AttemptRefused(sizes: seq<Result<u64>>, cfg: VaultConfig, cursor: nat, f: FileId, contents: seq<byte>,
                                 n: nat)
    requires cfg.maxChunkSize > 0
  {
    PlanSplit(Grown(sizes, n), cfg, CursorAt(sizes, cfg, cursor, f, contents, n), f, contents) == Err(NoWritableBlob)
  }

  lemma PushedOn(sizes: seq<Result<u64>>, n: nat, cfg: VaultConfig, cursor: nat, f: FileId, contents: seq<byte>)
    requires AllSized(sizes) && Striped(cfg) && cfg.maxChunkSize > 0 && EffectiveChunkSize(cfg).Ok?
    requires PlanSplit(Grown(sizes, n), cfg, cursor, f, contents) == Err(NoWritableBlob)
    requires Pushed(|FilePieces(contents, EffectiveChunkSize(cfg).value)|, |sizes|, n, cursor)
    ensures Pushed(|FilePieces(contents, EffectiveChunkSize(cfg).value)|, |sizes|, n + 1,
                   CursorAfter(Grown(sizes, n), cfg, cursor, f, contents))
    ensures n < Enough(|FilePieces(contents, EffectiveChunkSize(cfg).value)|, |sizes|)
  {
    var m := |FilePieces(contents, EffectiveChunkSize(cfg).value)|;
    hide FilePieces, EffectiveChunkSize, PlanSplit, CursorAfter, Grown, AllSized, Pushed, Enough;
    if n >= m {
      RefusedAttempt(sizes, n, cfg, cursor, f, contents);
    }
    PushedNext(m, |sizes|, n, cursor, CursorAfter(Grown(sizes, n), cfg, cursor, f, contents));
  }

  lemma PushedNext(chunks: nat, blobs: nat, n: nat, cursor: nat, after: nat)
    requires chunks > 0 && Pushed(chunks, blobs, n, cursor)
    requires n >= chunks ==> cursor % (blobs + n) + chunks <= after <= blobs
    ensures Pushed(chunks, blobs, n + 1, after) && n < Enough(chunks, blobs)
  {
    if n >= chunks {
      var q := n - chunks;
      if q > 0 {
        SmallRemainder(cursor, blobs + n);
      }
      assert q * chunks + chunks == (q + 1) * chunks;
      Quotients(q + 1, chunks, blobs);
    } else {
      Quotients(0, chunks, blobs);
    }
  }

  lemma Quotients(q: nat, d: nat, n: nat)
    requires d > 0 && q * d <= n
    ensures q <= n / d
  {
    if q > n / d {
      Product(d, n / d + 1, q);
    }
  }

  lemma {:induction false} RefusedRun(sizes: seq<Result<u64>>, cfg: VaultConfig, cursor: nat, f: FileId,
                                      contents: seq<byte>, n: nat)
    requires AllSized(sizes) && Striped(cfg) && cfg.maxChunkSize > 0 && EffectiveChunkSize(cfg).Ok?
    requires forall i :: 0 <= i <= n ==> AttemptRefused(sizes, cfg, cursor, f, contents, i)
    ensures n < Enough(|FilePieces(contents, EffectiveChunkSize(cfg).value)|, |sizes|)
    ensures Pushed(|FilePieces(contents, EffectiveChunkSize(cfg).value)|, |sizes|, n + 1,
                   CursorAt(sizes, cfg, cursor, f, contents, n + 1))
  {
    hide PlanSplit, CursorAfter, Grown, AllSized, EffectiveChunkSize, FilePieces, Enough;
    if n > 0 {
      RefusedRun(sizes, cfg, cursor, f, contents, n - 1);
    }
    assert AttemptRefused(sizes, cfg, cursor, f, contents, n);
    PushedOn(sizes, n, cfg, CursorAt(sizes, cfg, cursor, f, contents, n), f, contents);
  }

  /** Striped retry always ends: however full the blobs are and wherever the cursor stands, one of the first
      attempts is not refused for want of a writable blob.  A new blob for every chunk is needed at most, and
      one more for every run of blobs there were that takes all the chunks. */
  lemma StripedRetryEnds(sizes: seq<Result<u64>>, cfg: VaultConfig, cursor: nat, f: FileId, contents: seq<byte>)
    requires AllSized(sizes) && Striped(cfg) && cfg.maxChunkSize > 0 && EffectiveChunkSize(cfg).Ok?
    ensures exists n :: 0 <= n <= Enough(|FilePieces(contents, EffectiveChunkSize(cfg).value)|, |sizes|)
                        && !AttemptRefused(sizes, cfg, cursor, f, contents, n)
  {
    var enough := Enough(|FilePieces(contents, EffectiveChunkSize(cfg).value)|, |sizes|);
    hide *;
    if forall n :: 0 <= n <= enough ==> AttemptRefused(sizes, cfg, cursor, f, contents, n) {
      RefusedRun(sizes, cfg, cursor, f, contents, enough);
      assert false;
    }
  }
}
