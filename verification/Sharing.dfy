/** Several handles on one file, taking turns under the exclusive lock. */
module Sharing {
  import opened Basics
  import opened Crypto
  import opened Disk
  import opened IndexCodec
  import opened Ledger
  import opened Transaction
  import opened Commits
  import opened Handles

  // A write as the code does it, from whatever the handle has loaded

  /** Where a write puts the index, and the operations it issues before its commit. */
  ghost function PlaceOps(keys: Keys, cfg: BlobConfig, d: DiskState, l: Locator, tail: nat, frames: seq<seq<byte>>,
                          plain: seq<byte>, ent: Entropy): Result<(seq<Op>, u64)>
    requires l.offset + l.length <= |d.bytes|
  {
    var end, eof := l.offset + l.length, |d.bytes|;
    var entries := StreamXor(keys.indexStream, l.length, plain);
    if |Join(frames)| > SaturatingSub(l.offset, tail) || |plain| > eof - end then
      var at :- CheckedAdd(tail + |Join(frames)|, cfg.relocationLeadingPadding);
      var required :- CheckedAdd(at, l.length + |plain| + cfg.relocationTrailingPadding);
      Ok((RelocateOps(eof, if required > eof then FillPieces(eof, required - eof, ent.fill) else [], at,
                      d.bytes[l.offset..end], entries, tail, frames), at))
    else
      Ok((AppendOps(tail, frames, end, entries), l.offset))
  }

  /** The locator of the index read back from the file. */
  ghost function NextLocator(l: Locator, staged: DiskState, at: u64, n: nat): Result<Locator> {
    var length :- CheckedAdd(n, 0);
    var ciphertext :- ReadRange(staged, at, length);
    Ok(Locator(l.generation + 1, at, length, Mac(l.generation + 1, length, ciphertext), 1 - l.slot))
  }

  /** What a write does to the file, and the snapshot its handle then has, from the locator and index the
      handle works with. */
  ghost function WriteFrom(keys: Keys, cfg: BlobConfig, d: DiskState, l: Locator, loaded: Loaded, req: Request,
                           ent: Entropy): Result<(DiskState, Snapshot)>
  {
    var tail :- DataTail(loaded.index.chunks);
    if !ChunksFit(req.chunks) then Err(InvalidChunkSize)
    else
      var chunkEnd :- CheckedAdd(tail, ChunkBytes(req.chunks));
      var rs := ChunkRecords(keys, tail, req.chunks);
      var plain := Plain(rs + CompleteRecords(req.completed));
      if l.offset + l.length > |d.bytes| then Err(IndexChainBroken)
      else
        var placed :- PlaceOps(keys, cfg, d, l, tail, Frames(keys, ent, rs), plain, ent);
        var staged := ApplyAll(d, placed.0);
        var locator :- NextLocator(l, staged, placed.1, l.length + |plain|);
        Ok((Apply(staged, WriteSlot(locator)),
            Snapshot(locator, BlobIndex(loaded.index.chunks + IndexOf(rs).chunks, loaded.index.completed + req.completed),
                     loaded.plaintext + plain)))
  }

  lemma PlacedOps(t: Tx)
    requires t.h.commits != [] && Inv(t.keys, t.d, t.h) && ChunksFit(t.req.chunks) && t.Tail() + t.ChunkLen() < U64_LIMIT
    ensures var rs := ChunkRecords(t.keys, t.Tail(), t.req.chunks);
      var plain := Plain(rs + CompleteRecords(t.req.completed));
      && t.IndexEnd() <= |t.d.bytes|
      && PlaceOps(t.keys, t.cfg, t.d, Last(t.h), t.Tail(), Frames(t.keys, t.ent, rs), plain, t.ent)
         == if t.Fits() then Ok((t.Body(), t.IndexAt())) else Err(IntegerOverflow)
  {
    hide HistoryOk, FramesOn, RegionsIn, SlotOk, Plain, ChunkRecords, CompleteRecords, Frames, FillPieces, PieceOps,
         AppendOps,
         RelocateOps, Tx.Body, Join;
    var rs := ChunkRecords(t.keys, t.Tail(), t.req.chunks);
    JoinedFrames(t.keys, t.ent, t.Tail(), t.req.chunks);
    ChunkRecordsPlain(t.keys, t.Tail(), t.req.chunks);
    CompleteRecordsPlain(t.req.completed);
    EntriesAppend(rs, CompleteRecords(t.req.completed));
    if t.Fits() {
      if t.Relocates() {
        BodyIsRelocate(t);
      } else {
        BodyIsAppend(t);
      }
    }
  }

  /** From the last commit a write does exactly what the transaction does, or fails. */
  lemma WriteIsTransaction(t: Tx)
    requires t.h.commits != [] && Inv(t.keys, t.d, t.h)
    ensures var r := WriteFrom(t.keys, t.cfg, t.d, Last(t.h), LoadedOf(t.h.records), t.req, t.ent);
      if t.Fits() then
        r == Ok((ApplyAll(t.d, t.Script()), Snapshot(t.NewLocator(), IndexOf(t.Records()), Plain(t.Records()))))
      else r.Err?
  {
    hide HistoryOk, FramesOn, RegionsIn, SlotOk, Plain, IndexOf, ChunkRecords, CompleteRecords, Frames, Tx.Body,
         Tx.Script, ApplyAll,
         Cipher, PlaceOps, DataTail;
    TailFits(t);
    DataTailIsTail(t.keys, t.h.records);
    if ChunksFit(t.req.chunks) && t.Tail() + t.ChunkLen() < U64_LIMIT {
      PlacedOps(t);
      if t.Fits() {
        StagedReads(t);
        CommitDone(t, []);
        IndexAfter(t);
      }
    }
  }

  lemma TailFits(t: Tx)
    requires t.h.commits != [] && Inv(t.keys, t.d, t.h)
    ensures Placed(t.keys, t.h.records) && t.Tail() < U64_LIMIT
  {
    hide FramesOn, RegionsIn, SlotOk, Cipher, CommitOk;
  }

  /** Reading back the index that a transaction has staged gives its new locator. */
  lemma StagedReads(t: Tx)
    requires t.Ready()
    ensures |Plain(t.NewRecords())| == t.EntryLen() && t.IndexAt() < U64_LIMIT
    ensures NextLocator(Last(t.h), ApplyAll(t.d, t.Body()), t.IndexAt(), Last(t.h).length + t.EntryLen())
         == Ok(t.NewLocator())
  {
    hide HistoryOk, FramesOn, RegionsIn, SlotOk, Placed, Cipher, Tx.Body, ApplyAll, Frames, Join, Plain;
    BodyStages(t);
    NewIndexLength(t);
    var staged, n := ApplyAll(t.d, t.Body()), Last(t.h).length + t.EntryLen();
    ReadBackLocator(t, staged, Locator(Last(t.h).generation + 1, t.IndexAt(), n,
                                       Mac(Last(t.h).generation + 1, n, staged.bytes[t.IndexAt()..t.IndexAt() + n]),
                                       1 - Last(t.h).slot));
  }

  // Turns

  /** One file and the snapshot of every open handle. */
  datatype World = World(keys: Keys, d: DiskState, h: History, snapshots: seq<Option<Snapshot>>)

  /** A turn of one handle; each handle writes with gaps and paddings of its own. */
  datatype Turn = WriteTurn(handle: nat, cfg: BlobConfig, req: Request, ent: Entropy) | RefreshTurn(handle: nat)

  ghost predicate WorldOk(w: World) {
    && w.h.commits != [] && Inv(w.keys, w.d, w.h)
    && forall i :: 0 <= i < |w.snapshots| ==> SnapshotOk(w.h, w.snapshots[i])
  }

  ghost function TxAt(w: World, turn: Turn): Tx
    requires turn.WriteTurn?
  {
    Tx(w.keys, turn.cfg, w.d, w.h, turn.req, turn.ent)
  }

  /** What a turn gives its handle: the file and the snapshot it leaves.  With `skip` a writer does not
      read the index when the active locator is its snapshot's; without, it always does. */
  ghost function Answer(w: World, turn: Turn, skip: bool): Result<(DiskState, Snapshot)>
    requires turn.handle < |w.snapshots|
  {
    match turn
    case WriteTurn(handle, cfg, req, ent) =>
      var locators :- SortedLocators(w.d);
      var loaded :- if skip then LoadForWrite(w.keys, w.d, w.snapshots[handle], locators[0])
                    else LoadIndex(w.keys, w.d, locators[0]);
      WriteFrom(w.keys, cfg, w.d, locators[0], loaded, req, ent)
    case RefreshTurn(handle) =>
      var s :- Refresh(w.keys, w.d);
      Ok((w.d, s))
  }

  /** The history is what the file's commits are known by; nothing a turn does to the file depends on it. */
  ghost function Play(w: World, turn: Turn, skip: bool): World {
    if turn.handle >= |w.snapshots| then w
    else
      match Answer(w, turn, skip)
      case Ok((d, s)) =>
        World(w.keys, d, if turn.WriteTurn? && TxAt(w, turn).Ready() then TxAt(w, turn).After() else w.h,
              w.snapshots[turn.handle := Some(s)])
      case Err(_) => w
  }

  ghost function PlayAll(w: World, turns: seq<Turn>, skip: bool): World {
    if turns == [] then w else Play(PlayAll(w, turns[..|turns| - 1], skip), turns[|turns| - 1], skip)
  }

  ghost function Answers(w: World, turns: seq<Turn>, skip: bool): seq<Option<Result<(DiskState, Snapshot)>>> {
    if turns == [] then []
    else
      var before, turn := turns[..|turns| - 1], turns[|turns| - 1];
      var now := PlayAll(w, before, skip);
      Answers(w, before, skip) + [if turn.handle < |now.snapshots| then Some(Answer(now, turn, skip)) else None]
  }

  /** The records a turn commits. */
  ghost function Adds(w: World, turn: Turn): seq<Record> {
    if turn.WriteTurn? && turn.handle < |w.snapshots| && TxAt(w, turn).Ready() then TxAt(w, turn).NewRecords() else []
  }

  /** Every record committed by any handle, in the order of the turns. */
  ghost function AllAdded(w: World, turns: seq<Turn>): seq<Record> {
    if turns == [] then []
    else var before := turns[..|turns| - 1]; AllAdded(w, before) + Adds(PlayAll(w, before, true), turns[|turns| - 1])
  }

  /** A writer's answer is the transaction's, whether it skips the index read or not. */
  lemma WriteAnswer(w: World, turn: Turn, skip: bool)
    requires WorldOk(w) && turn.WriteTurn? && turn.handle < |w.snapshots|
    ensures var t, r := TxAt(w, turn), Answer(w, turn, skip);
      if t.Ready() then
        r == Ok((ApplyAll(t.d, t.Script()), Snapshot(t.NewLocator(), IndexOf(t.Records()), Plain(t.Records()))))
      else r.Err? && r == Answer(w, turn, true)
  {
    var t := TxAt(w, turn);
    hide Inv, SnapshotOk, LoadForWrite, LoadIndex, WriteFrom, Tx.Fits, Tx.Script, Tx.NewLocator, Tx.Records, ApplyAll;
    ActiveIsLast(w.keys, w.d, w.h);
    SnapshotCoherent(w.keys, w.d, w.h, w.snapshots[turn.handle]);
    WriteIsTransaction(t);
  }

  lemma PlayKeeps(w: World, turn: Turn)
    requires WorldOk(w)
    ensures var next := Play(w, turn, true);
      && WorldOk(next) && next.keys == w.keys && next.h.records == w.h.records + Adds(w, turn)
      && |next.snapshots| == |w.snapshots|
    ensures Play(w, turn, false) == Play(w, turn, true)
    ensures turn.handle < |w.snapshots| ==> Answer(w, turn, false) == Answer(w, turn, true)
  {
    hide Inv, SnapshotOk, Tx.Fits, Tx.Script, ApplyAll, Tx.NewLocator, Refresh, Tx.NewRecords, Answer;
    if turn.handle < |w.snapshots| {
      if turn.WriteTurn? {
        var t := TxAt(w, turn);
        WriteAnswer(w, turn, true);
        WriteAnswer(w, turn, false);
        if t.Ready() {
          CommitDone(t, []);
          var next := Play(w, turn, true);
          forall i | 0 <= i < |next.snapshots| ensures SnapshotOk(next.h, next.snapshots[i]) {
            SnapshotKept(t, w.snapshots[i]);
          }
        }
      } else {
        RefreshAnswer(w, turn);
      }
    }
  }

  lemma RefreshAnswer(w: World, turn: Turn)
    requires WorldOk(w) && turn.RefreshTurn? && turn.handle < |w.snapshots|
    ensures var r := Answer(w, turn, true);
      r == Answer(w, turn, false) && r.Ok? && r.value.0 == w.d && SnapshotOk(w.h, Some(r.value.1))
  {
    hide Inv, SnapshotOk, Refresh;
    RefreshCommitted(w.keys, w.d, w.h);
  }

  /** Snapshot coherence.  Whatever the turns, handles that skip the index read get the same answers and
      leave the same file as handles that always read it; and each then works from every record any handle
      has committed, so a stale handle never drops another handle's chunks. */
  lemma {:induction false} SharedRun(w: World, turns: seq<Turn>)
    requires WorldOk(w)
    ensures PlayAll(w, turns, true) == PlayAll(w, turns, false) && Answers(w, turns, true) == Answers(w, turns, false)
    ensures var now := PlayAll(w, turns, true);
      && WorldOk(now) && |now.snapshots| == |w.snapshots| && now.keys == w.keys
      && LoadIndex(w.keys, now.d, Last(now.h)) == Ok(LoadedOf(w.h.records + AllAdded(w, turns)))
      && forall i :: 0 <= i < |now.snapshots| ==>
           LoadForWrite(w.keys, now.d, now.snapshots[i], Last(now.h)) == LoadIndex(w.keys, now.d, Last(now.h))
  {
    RunRecords(w, turns);
    hide Inv, SnapshotOk, Play, LoadForWrite, LoadIndex, PlayAll, Answers, AllAdded;
    var now := PlayAll(w, turns, true);
    ReadActiveCommitted(now.keys, now.d, now.h);
    forall i | 0 <= i < |now.snapshots|
      ensures LoadForWrite(w.keys, now.d, now.snapshots[i], Last(now.h)) == LoadIndex(w.keys, now.d, Last(now.h))
    {
      SnapshotCoherent(w.keys, now.d, now.h, now.snapshots[i]);
    }
  }

  lemma {:induction false} RunRecords(w: World, turns: seq<Turn>)
    requires WorldOk(w)
    ensures PlayAll(w, turns, true) == PlayAll(w, turns, false) && Answers(w, turns, true) == Answers(w, turns, false)
    ensures var now := PlayAll(w, turns, true);
      && WorldOk(now) && |now.snapshots| == |w.snapshots| && now.keys == w.keys
      && now.h.records == w.h.records + AllAdded(w, turns)
  {
    hide WorldOk, Play, Adds, Answer;
    if turns != [] {
      var before := turns[..|turns| - 1];
      RunRecords(w, before);
      PlayKeeps(PlayAll(w, before, true), turns[|turns| - 1]);
    }
  }
}
