/** A write transaction from a committed state: the operations it issues and the state it reaches. */
module Commits {
  import opened Basics
  import opened IndexCodec
  import opened Crypto
  import opened Disk
  import opened Ledger
  import opened Transaction

  datatype Tx = Tx(keys: Keys, cfg: BlobConfig, d: DiskState, h: History, req: Request, ent: Entropy) {

    ghost function Tail(): nat { Ledger.Tail(h.records) }

    ghost function ChunkLen(): nat { ChunkBytes(req.chunks) }

    ghost function EntryLen(): nat { EntryBytes(req) }

    ghost function IndexEnd(): nat
      requires h.commits != []
    {
      Last(h).offset + Last(h).length
    }

    /** Case 2: the chunks do not fit before the index or the entries do not fit after it. */
    ghost predicate Relocates()
      requires h.commits != []
    {
      || ChunkLen() > SaturatingSub(Last(h).offset, Tail())
      || EntryLen() > |d.bytes| - IndexEnd()
    }

    ghost function IndexAt(): nat
      requires h.commits != []
    {
      if Relocates() then Tail() + ChunkLen() + cfg.relocationLeadingPadding else Last(h).offset
    }

    ghost function RequiredEof(): nat
      requires h.commits != []
    {
      IndexAt() + Last(h).length + EntryLen() + cfg.relocationTrailingPadding
    }

    /** Exactly when the transaction succeeds: no chunk is too long and no sum overflows. */
    ghost predicate Fits()
      requires h.commits != []
    {
      && ChunksFit(req.chunks)
      && Tail() + ChunkLen() < U64_LIMIT
      && (Relocates() ==> RequiredEof() < U64_LIMIT)
    }

    /** Some sum of the transaction does not fit 64 bits. */
    ghost predicate Overflows()
      requires h.commits != []
    {
      Tail() + ChunkLen() >= U64_LIMIT || (Relocates() && RequiredEof() >= U64_LIMIT)
    }

    ghost predicate Ready() {
      h.commits != [] && Inv(keys, d, h) && Fits()
    }

    ghost function NewChunkRecords(): seq<Record>
      requires Ready()
    {
      ChunkRecords(keys, Tail(), req.chunks)
    }

    ghost function NewRecords(): seq<Record>
      requires Ready()
    {
      NewChunkRecords() + CompleteRecords(req.completed)
    }

    ghost function Records(): seq<Record>
      requires Ready()
    {
      h.records + NewRecords()
    }

    ghost function NewLocator(): Locator
      requires Ready()
    {
      NewIndexLength(this);
      LocatorFor(keys, |h.commits|, IndexAt(), Records())
    }

    /** The history once the transaction has committed. */
    ghost function After(): History
      requires Ready()
    {
      History(Records(), h.commits + [Commit(NewLocator(), |Records()|)])
    }

    ghost function EntryCipher(): seq<byte>
      requires Ready()
    {
      StreamXor(keys.indexStream, Last(h).length, Plain(NewRecords()))
    }

    ghost function FrameOps(): seq<Op>
      requires Ready()
    {
      PieceOps(Tail(), Frames(keys, ent, NewChunkRecords()))
    }

    ghost function GrowthOps(): seq<Op>
      requires Ready()
    {
      var eof := |d.bytes|;
      if RequiredEof() > eof then PieceOps(eof, FillPieces(eof, RequiredEof() - eof, ent.fill)) else []
    }

    ghost function MoveOps(): seq<Op>
      requires Ready()
    {
      if Last(h).length > 0 then [Write(IndexAt(), Cipher(keys, h.records))] else []
    }

    /** Everything before the commit: chunks and index entries, each made durable. */
    ghost function Body(): seq<Op>
      requires Ready()
    {
      if Relocates() then
        GrowthOps() + MoveOps() + [Write(IndexAt() + Last(h).length, EntryCipher())] + FrameOps() + [Sync]
      else
        FrameOps() + [Sync] + [Write(IndexEnd(), EntryCipher())] + [Sync]
    }

    ghost function Script(): seq<Op>
      requires Ready()
    {
      Body() + [WriteSlot(NewLocator()), Sync]
    }
  }

  lemma {:induction false} ChunkRecordsPlain(keys: Keys, tail: nat, chunks: seq<NewChunk>)
    requires tail + ChunkBytes(chunks) < U64_LIMIT
    ensures |Plain(ChunkRecords(keys, tail, chunks))| == CHUNK_ENTRY_LEN * |chunks|
  {
    if chunks == [] {
    } else {
      var n := |chunks| - 1;
      var rs, r := ChunkRecords(keys, tail, chunks[..n]), LastRecord(keys, tail, chunks);
      ChunkRecordsPlain(keys, tail, chunks[..n]);
      assert ChunkRecords(keys, tail, chunks) == rs + [r];
      EntriesAppend(rs, [r]);
      assert Entries([r]) == [EntryOf(r)];
      EncodeOne(EntryOf(r));
    }
  }

  lemma {:induction false} CompleteRecordsPlain(completed: seq<CompleteEntry>)
    ensures |Plain(CompleteRecords(completed))| == COMPLETE_ENTRY_LEN * |completed|
  {
    if completed == [] {
    } else {
      var n := |completed| - 1;
      var rs, r := CompleteRecords(completed[..n]), CompleteRecord(completed[n]);
      CompleteRecordsPlain(completed[..n]);
      assert CompleteRecords(completed) == rs + [r];
      EntriesAppend(rs, [r]);
      assert Entries([r]) == [EntryOf(r)];
      EncodeOne(EntryOf(r));
    }
  }

  /** The index grows by exactly the size of the new entries, and its length still fits. */
  lemma NewIndexLength(t: Tx)
    requires t.Ready()
    ensures |Plain(t.NewRecords())| == t.EntryLen()
    ensures |Plain(t.h.records)| == Last(t.h).length
    ensures |Plain(t.Records())| == Last(t.h).length + t.EntryLen() < U64_LIMIT
    ensures t.IndexAt() < U64_LIMIT
  {
    ChunkRecordsPlain(t.keys, t.Tail(), t.req.chunks);
    CompleteRecordsPlain(t.req.completed);
    EntriesAppend(t.NewChunkRecords(), CompleteRecords(t.req.completed));
    EntriesAppend(t.h.records, t.NewRecords());
    var top := |t.h.commits| - 1;
    assert CommitOk(t.keys, t.h, top);
    assert t.h.records[..t.h.commits[top].count] == t.h.records;
  }

  /** Incremental encryption of the new entries extends the one-pass ciphertext. */
  lemma CipherGrows(t: Tx)
    requires t.Ready()
    ensures Cipher(t.keys, t.Records()) == Cipher(t.keys, t.h.records) + t.EntryCipher()
    ensures |Cipher(t.keys, t.h.records)| == Last(t.h).length && |t.EntryCipher()| == t.EntryLen()
  {
    NewIndexLength(t);
    EntriesAppend(t.h.records, t.NewRecords());
    StreamXorAppend(t.keys.indexStream, Plain(t.h.records), Plain(t.NewRecords()));
  }

  lemma ReadyPlaced(t: Tx)
    requires t.Ready()
    ensures Placed(t.keys, t.h.records) && t.Tail() <= Last(t.h).offset
  {
    hide FramesOn, RegionsIn, SlotOk, Cipher, CommitOk, Tx.Fits;
  }

  lemma RecordsPlaced(t: Tx)
    requires t.Ready()
    ensures Placed(t.keys, t.Records()) && Tail(t.Records()) == t.Tail() + t.ChunkLen() <= t.IndexAt()
  {
    hide HistoryOk, FramesOn, RegionsIn, SlotOk, Cipher, ChunkRecords, ChunkBytes, CompleteRecords, Ledger.Tail;
    ReadyPlaced(t);
    hide Placed;
    PlanPlaced(t.keys, t.h.records, t.req.chunks);
    CompletesPlaced(t.keys, t.h.records + t.NewChunkRecords(), t.req.completed);
    assert t.Records() == t.h.records + t.NewChunkRecords() + CompleteRecords(t.req.completed);
  }

  lemma TouchesNone(p: int)
    ensures !Touches([], p)
  {
  }

  lemma AnyTouches(a: seq<Op>, b: seq<Op>, c: seq<Op>, e: seq<Op>, p: int)
    ensures Touches(a + b + c + e + [Sync], p) <==> Touches(a, p) || Touches(b, p) || Touches(c, p) || Touches(e, p)
  {
    TouchesOne(Sync, p);
    TouchesAppend(a, b, p);
    TouchesAppend(a + b, c, p);
    TouchesAppend(a + b + c, e, p);
    TouchesAppend(a + b + c + e, [Sync], p);
  }

  lemma FramesTouch(t: Tx, p: int)
    requires t.Ready()
    ensures Touches(t.FrameOps(), p) <==> t.Tail() <= p < t.Tail() + t.ChunkLen()
    ensures forall op :: op in t.FrameOps() ==> op.Write?
  {
    JoinedFrames(t.keys, t.ent, t.Tail(), t.req.chunks);
    PieceOpsTouch(t.Tail(), Frames(t.keys, t.ent, t.NewChunkRecords()), p);
  }

  lemma MoveTouches(t: Tx, p: int)
    requires t.Ready()
    ensures Touches(t.MoveOps(), p) <==> t.IndexAt() <= p < t.IndexAt() + Last(t.h).length
  {
    CipherGrows(t);
    TouchesOne(Write(t.IndexAt(), Cipher(t.keys, t.h.records)), p);
  }

  /** Which bytes the transaction writes before its commit. */
  lemma BodyTouches(t: Tx, p: int)
    requires t.Ready()
    ensures Touches(t.Body(), p) <==>
      || t.Tail() <= p < t.Tail() + t.ChunkLen()
      || (!t.Relocates() && t.IndexEnd() <= p < t.IndexEnd() + t.EntryLen())
      || (t.Relocates() && t.IndexAt() <= p < t.IndexAt() + Last(t.h).length + t.EntryLen())
      || (t.Relocates() && |t.d.bytes| <= p < t.RequiredEof())
    ensures forall op :: op in t.Body() ==> !op.WriteSlot?
  {
    hide HistoryOk, FramesOn, RegionsIn, SlotOk, Placed, Cipher, Touches, Frames, Join, PieceOps;
    CipherGrows(t);
    FramesTouch(t, p);
    if t.Relocates() {
      var entries := Write(t.IndexAt() + Last(t.h).length, t.EntryCipher());
      GrowthTouches(t, p);
      MoveTouches(t, p);
      TouchesOne(entries, p);
      AnyTouches(t.GrowthOps(), t.MoveOps(), [entries], t.FrameOps(), p);
    } else {
      var entries := Write(t.IndexEnd(), t.EntryCipher());
      TouchesOne(entries, p);
      TouchesOne(Sync, p);
      TouchesNone(p);
      AnyTouches([], t.FrameOps(), [Sync], [entries], p);
      assert t.Body() == [] + t.FrameOps() + [Sync] + [entries] + [Sync];
    }
  }

  lemma GrowthTouches(t: Tx, p: int)
    requires t.Ready()
    ensures Touches(t.GrowthOps(), p) <==> |t.d.bytes| <= p < t.RequiredEof()
    ensures forall op :: op in t.GrowthOps() ==> op.Write?
  {
    var eof := |t.d.bytes|;
    if t.RequiredEof() > eof {
      FillLength(eof, t.RequiredEof() - eof, t.ent.fill);
      PieceOpsTouch(eof, FillPieces(eof, t.RequiredEof() - eof, t.ent.fill), p);
    }
  }

  // The bytes the operations before the commit leave

  /** A file of `size` bytes that holds `cipher` at `at` and `frames` at `tail`. */
  ghost predicate StagedAt(d: DiskState, slots: seq<Slot>, size: nat,
                           at: nat, cipher: seq<byte>, tail: nat, frames: seq<byte>)
  {
    && d.slots == slots && |d.bytes| == size
    && at + |cipher| <= size && d.bytes[at..at + |cipher|] == cipher
    && tail + |frames| <= size && d.bytes[tail..tail + |frames|] == frames
  }

  lemma AppendStages(d: DiskState, at: nat, index: seq<byte>, entries: seq<byte>, tail: nat, frames: seq<byte>)
    requires tail + |frames| <= at && at + |index| + |entries| <= |d.bytes|
    requires d.bytes[at..at + |index|] == index
    ensures StagedAt(d.(bytes := Overwrite(Overwrite(d.bytes, tail, frames), at + |index|, entries)),
                     d.slots, |d.bytes|, at, index + entries, tail, frames)
  {
    var end := at + |index|;
    var mid := Overwrite(d.bytes, tail, frames);
    var after := Overwrite(mid, end, entries);
    OverwriteEffect(d.bytes, tail, frames);
    OverwriteEffect(mid, end, entries);
    assert after[tail..tail + |frames|] == mid[tail..tail + |frames|];
    assert after[at..end] == d.bytes[at..end];
    assert after[at..end + |entries|] == after[at..end] + after[end..end + |entries|];
  }

  lemma RelocateStages(d: DiskState, at: nat, moved: seq<byte>, entries: seq<byte>, tail: nat, frames: seq<byte>)
    requires tail + |frames| <= at && at + |moved| + |entries| <= |d.bytes|
    ensures StagedAt(d.(bytes := Overwrite(Overwrite(Overwrite(d.bytes, at, moved), at + |moved|, entries), tail, frames)),
                     d.slots, |d.bytes|, at, moved + entries, tail, frames)
  {
    OverwriteTwice(d.bytes, at, moved, entries);
    var mid := Overwrite(d.bytes, at, moved + entries);
    OverwriteEffect(d.bytes, at, moved + entries);
    OverwriteEffect(mid, tail, frames);
    var hi := at + |moved| + |entries|;
    assert Overwrite(mid, tail, frames)[at..hi] == mid[at..hi];
  }

  lemma Case1Effect(t: Tx)
    requires t.Ready() && !t.Relocates()
    ensures ApplyAll(t.d, t.Body())
         == t.d.(bytes := Overwrite(Overwrite(t.d.bytes, t.Tail(), Join(Frames(t.keys, t.ent, t.NewChunkRecords()))),
                                    t.IndexEnd(), t.EntryCipher()))
  {
    PieceOpsEffect(t.d, t.Tail(), Frames(t.keys, t.ent, t.NewChunkRecords()));
    ApplyOne(t.d, t.FrameOps(), Sync);
    ApplyOne(t.d, t.FrameOps() + [Sync], Write(t.IndexEnd(), t.EntryCipher()));
    ApplyOne(t.d, t.FrameOps() + [Sync] + [Write(t.IndexEnd(), t.EntryCipher())], Sync);
  }

  ghost function GrownFile(t: Tx): DiskState
    requires t.Ready()
  {
    ApplyAll(t.d, t.GrowthOps())
  }

  /** A file is grown with the random bytes drawn for the new positions. */
  lemma GrownBytes(d: DiskState, n: nat, fill: nat -> byte)
    ensures var grown := ApplyAll(d, PieceOps(|d.bytes|, FillPieces(|d.bytes|, n, fill))).bytes;
      && |grown| == |d.bytes| + n
      && forall p :: |d.bytes| <= p < |grown| ==> grown[p] == fill(p)
  {
    hide FillPieces, Join, PieceOps, ApplyAll, Overwrite;
    var pieces := FillPieces(|d.bytes|, n, fill);
    FillLength(|d.bytes|, n, fill);
    PieceOpsEffect(d, |d.bytes|, pieces);
    OverwriteEnd(d.bytes, Join(pieces));
    forall p | |d.bytes| <= p < |d.bytes| + n ensures (d.bytes + Join(pieces))[p] == fill(p) {
      FillDrawn(|d.bytes|, n, fill, p - |d.bytes|);
    }
  }

  lemma OverwriteEnd(bytes: seq<byte>, data: seq<byte>)
    ensures Overwrite(bytes, |bytes|, data) == bytes + data
  {
  }

  lemma GrowEffect(d: DiskState, n: nat, fill: nat -> byte)
    ensures var after := ApplyAll(d, PieceOps(|d.bytes|, FillPieces(|d.bytes|, n, fill)));
      after.slots == d.slots && |after.bytes| == |d.bytes| + n
  {
    var pieces := FillPieces(|d.bytes|, n, fill);
    FillLength(|d.bytes|, n, fill);
    PieceOpsEffect(d, |d.bytes|, pieces);
    OverwriteEffect(d.bytes, |d.bytes|, Join(pieces));
  }

  lemma GrowthEffect(t: Tx)
    requires t.Ready()
    ensures GrownFile(t).slots == t.d.slots
    ensures |GrownFile(t).bytes| == Max(|t.d.bytes|, t.RequiredEof())
  {
    hide HistoryOk, FramesOn, RegionsIn, SlotOk, Placed, Cipher, PieceOps, FillPieces;
    if t.RequiredEof() > |t.d.bytes| {
      GrowEffect(t.d, t.RequiredEof() - |t.d.bytes|, t.ent.fill);
    }
  }

  lemma FiveSteps(d: DiskState, a: seq<Op>, b: seq<Op>, op: Op, c: seq<Op>)
    ensures ApplyAll(d, a + b + [op] + c + [Sync])
         == ApplyAll(Apply(ApplyAll(ApplyAll(d, a), b), op), c)
  {
    ApplyMore(d, a, b);
    ApplyOne(d, a + b, op);
    ApplyMore(d, a + b + [op], c);
    ApplyOne(d, a + b + [op] + c, Sync);
  }

  lemma MaybeWrite(d: DiskState, at: nat, data: seq<byte>, ops: seq<Op>)
    requires at <= |d.bytes| && ops == if |data| > 0 then [Write(at, data)] else []
    ensures ApplyAll(d, ops) == Apply(d, Write(at, data))
  {
    if data == [] {
      assert Overwrite(d.bytes, at, data) == d.bytes;
    } else {
      ApplyOne(d, [], Write(at, data));
      assert ops == [] + [Write(at, data)];
    }
  }

  /** After the growth there is room for the chunks, the moved index and the new entries. */
  lemma GrownRoom(t: Tx)
    requires t.Ready() && t.Relocates()
    ensures |Join(Frames(t.keys, t.ent, t.NewChunkRecords()))| == t.ChunkLen()
    ensures t.Tail() + t.ChunkLen() <= t.IndexAt()
    ensures t.IndexAt() + |Cipher(t.keys, t.h.records)| + |t.EntryCipher()| <= |GrownFile(t).bytes|
    ensures |Cipher(t.keys, t.h.records)| == Last(t.h).length && |t.EntryCipher()| == t.EntryLen()
  {
    JoinedFrames(t.keys, t.ent, t.Tail(), t.req.chunks);
    CipherGrows(t);
    GrowthEffect(t);
  }

  lemma Case2Effect(t: Tx)
    requires t.Ready() && t.Relocates()
    ensures ApplyAll(t.d, t.Body())
         == GrownFile(t).(bytes := Overwrite(Overwrite(Overwrite(GrownFile(t).bytes, t.IndexAt(), Cipher(t.keys, t.h.records)),
                                                   t.IndexAt() + Last(t.h).length, t.EntryCipher()),
                                         t.Tail(), Join(Frames(t.keys, t.ent, t.NewChunkRecords()))))
  {
    hide HistoryOk, FramesOn, RegionsIn, SlotOk, Placed, Cipher, ApplyAll, Frames, Join, PieceOps;
    var entries := Write(t.IndexAt() + Last(t.h).length, t.EntryCipher());
    GrownRoom(t);
    MaybeWrite(GrownFile(t), t.IndexAt(), Cipher(t.keys, t.h.records), t.MoveOps());
    FiveSteps(t.d, t.GrowthOps(), t.MoveOps(), entries, t.FrameOps());
    var moved := Apply(GrownFile(t), Write(t.IndexAt(), Cipher(t.keys, t.h.records)));
    OverwriteEffect(GrownFile(t).bytes, t.IndexAt(), Cipher(t.keys, t.h.records));
    OverwriteEffect(moved.bytes, entries.offset, entries.data);
    PieceOpsEffect(Apply(moved, entries), t.Tail(), Frames(t.keys, t.ent, t.NewChunkRecords()));
  }

  ghost function EofAfter(t: Tx): nat
    requires t.Ready()
  {
    if t.Relocates() then Max(|t.d.bytes|, t.RequiredEof()) else |t.d.bytes|
  }

  /** Before the commit slot is written, the new index and every chunk it lists are on the file. */
  ghost predicate Staged(t: Tx, d: DiskState)
    requires t.Ready()
  {
    StagedAt(d, t.d.slots, EofAfter(t), t.IndexAt(), Cipher(t.keys, t.Records()),
             t.Tail(), Join(Frames(t.keys, t.ent, t.NewChunkRecords())))
  }

  lemma Case1Room(t: Tx)
    requires t.Ready() && !t.Relocates()
    ensures |Join(Frames(t.keys, t.ent, t.NewChunkRecords()))| == t.ChunkLen()
    ensures t.Tail() + t.ChunkLen() <= t.IndexAt()
    ensures |Cipher(t.keys, t.h.records)| == Last(t.h).length && |t.EntryCipher()| == t.EntryLen()
    ensures t.IndexEnd() == t.IndexAt() + |Cipher(t.keys, t.h.records)|
    ensures t.IndexEnd() + |t.EntryCipher()| <= |t.d.bytes|
  {
    JoinedFrames(t.keys, t.ent, t.Tail(), t.req.chunks);
    CipherGrows(t);
  }

  lemma Case1Staged(t: Tx)
    requires t.Ready() && !t.Relocates()
    ensures Staged(t, ApplyAll(t.d, t.Body()))
  {
    hide HistoryOk, FramesOn, RegionsIn, SlotOk, Placed, Cipher, ApplyAll, StagedAt, Frames, Join;
    Case1Room(t);
    Case1Effect(t);
    CipherGrows(t);
    AppendStages(t.d, t.IndexAt(), Cipher(t.keys, t.h.records), t.EntryCipher(),
                 t.Tail(), Join(Frames(t.keys, t.ent, t.NewChunkRecords())));
  }

  lemma Case2Staged(t: Tx)
    requires t.Ready() && t.Relocates()
    ensures Staged(t, ApplyAll(t.d, t.Body()))
  {
    hide GrownFile, Tx.Body, Overwrite, HistoryOk, FramesOn, RegionsIn, SlotOk, Placed, Cipher, ApplyAll, StagedAt,
         Frames, Join;
    GrownRoom(t);
    Case2Effect(t);
    CipherGrows(t);
    GrowthEffect(t);
    RelocateStages(GrownFile(t), t.IndexAt(), Cipher(t.keys, t.h.records), t.EntryCipher(),
                   t.Tail(), Join(Frames(t.keys, t.ent, t.NewChunkRecords())));
  }

  lemma BodyStages(t: Tx)
    requires t.Ready()
    ensures Staged(t, ApplyAll(t.d, t.Body()))
    ensures |Cipher(t.keys, t.Records())| == Last(t.h).length + t.EntryLen()
    ensures |Join(Frames(t.keys, t.ent, t.NewChunkRecords()))| == t.ChunkLen()
    ensures |ApplyAll(t.d, t.Body()).bytes| < U64_LIMIT
  {
    CipherGrows(t);
    JoinedFrames(t.keys, t.ent, t.Tail(), t.req.chunks);
    if t.Relocates() {
      Case2Staged(t);
    } else {
      Case1Staged(t);
    }
  }
}
