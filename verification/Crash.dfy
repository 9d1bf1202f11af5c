/** Stopping a write transaction at any point, with unsynchronised writes landing in part. */
module Crash {
  import opened Basics
  import opened IndexCodec
  import opened Crypto
  import opened Disk
  import opened Ledger
  import opened Transaction
  import opened Commits

  /** How many operations are made durable by the last `Sync`. */
  function Synced(ops: seq<Op>): (n: nat)
    ensures n <= |ops|
  {
    if ops == [] then 0 else if ops[|ops| - 1] == Sync then |ops| else Synced(ops[..|ops| - 1])
  }

  /** The file after a power loss: operations since the last `Sync` landed in part. */
  ghost predicate CrashImage(d: DiskState, ops: seq<Op>, img: DiskState) {
    Image(ApplyAll(d, ops[..Synced(ops)]), ops[Synced(ops)..], img)
  }

  /** The file while operation `k` is under way and the earlier ones are complete. */
  ghost predicate InFlight(d: DiskState, ops: seq<Op>, k: nat, img: DiskState)
    requires k < |ops|
  {
    Image(ApplyAll(d, ops[..k]), [ops[k]], img)
  }

  /** The file at some point before the commit slot is written. */
  ghost predicate Staging(t: Tx, img: DiskState)
    requires t.Ready()
  {
    exists j :: 0 <= j <= |t.Body()| && Image(t.d, t.Body()[..j], img)
  }

  /** The file at some point of writing the commit slot, or after it. */
  ghost predicate Committing(t: Tx, img: DiskState)
    requires t.Ready()
  {
    Image(ApplyAll(t.d, t.Body()), [WriteSlot(t.NewLocator())], img)
  }

  /** The old index region meets none of the ranges the transaction writes. */
  ghost predicate Disjoint(t: Tx)
    requires t.Ready()
  {
    || Last(t.h).length == 0
    || (&& t.Tail() + t.ChunkLen() <= Last(t.h).offset
        && (|| t.IndexEnd() <= t.IndexAt()
            || t.IndexAt() + Last(t.h).length + t.EntryLen() <= Last(t.h).offset))
  }

  /** The guard under which a transaction is atomic: it appends, or it moves clear of the old index. */
  ghost predicate Atomic(t: Tx)
    requires t.Ready()
  {
    !t.Relocates() || Disjoint(t)
  }

  // Partial outcomes

  lemma TouchesSub(a: seq<Op>, b: seq<Op>, p: int)
    requires a <= b && Touches(a, p)
    ensures Touches(b, p)
  {
    TouchesAppend(a, b[|a|..], p);
    assert b == a + b[|a|..];
  }

  /** A partial outcome of later operations is one of all operations together. */
  lemma ImageWiden(d: DiskState, a: seq<Op>, b: seq<Op>, img: DiskState)
    requires Image(ApplyAll(d, a), b, img)
    requires forall op :: op in a ==> !op.WriteSlot?
    ensures Image(d, a + b, img)
  {
    ApplyIsImage(d, a);
    ApplyMore(d, a, b);
    var mid := ApplyAll(d, a);
    forall p | 0 <= p < |d.bytes| && !Touches(a + b, p)
      ensures img.bytes[p] == d.bytes[p]
    {
      TouchesAppend(a, b, p);
    }
    forall s: SlotIndex
      ensures img.slots[s] == d.slots[s]
        || ((exists i :: 0 <= i < |a + b| && (a + b)[i].WriteSlot? && (a + b)[i].locator.slot == s)
            && (img.slots[s] == Torn
                || exists i :: 0 <= i < |a + b| && (a + b)[i].WriteSlot? && (a + b)[i].locator.slot == s
                               && img.slots[s] == Sealed((a + b)[i].locator)))
    {
      assert mid.slots[s] == d.slots[s];
      if img.slots[s] != mid.slots[s] {
        var i :| 0 <= i < |b| && b[i].WriteSlot? && b[i].locator.slot == s;
        assert (a + b)[|a| + i] == b[i];
        if img.slots[s] != Torn {
          var j :| 0 <= j < |b| && b[j].WriteSlot? && b[j].locator.slot == s && img.slots[s] == Sealed(b[j].locator);
          assert (a + b)[|a| + j] == b[j];
        }
      }
    }
  }

  lemma SyncedPrefix(a: seq<Op>, op: Op)
    requires op != Sync
    ensures Synced(a + [op]) == Synced(a)
  {
    assert (a + [op])[..|a|] == a;
  }

  lemma BodyEndsSynced(t: Tx)
    requires t.Ready()
    ensures Synced(t.Body()) == |t.Body()| && t.Body() != []
  {
  }

  lemma StagingWindow(t: Tx, i: nat, j: nat, img: DiskState)
    requires t.Ready() && i <= j <= |t.Body()|
    requires Image(ApplyAll(t.d, t.Body()[..i]), t.Body()[i..j], img)
    ensures Staging(t, img)
  {
    hide HistoryOk, FramesOn, RegionsIn, SlotOk, Placed, Cipher, ApplyAll, Image;
    BodyTouches(t, 0);
    ImageWiden(t.d, t.Body()[..i], t.Body()[i..j], img);
    assert t.Body()[..i] + t.Body()[i..j] == t.Body()[..j];
  }

  lemma NothingPending(d: DiskState, ops: seq<Op>, img: DiskState)
    requires Image(d, ops, img) && (ops == [] || ops == [Sync])
    ensures img == d
  {
    forall p {
      TouchesOne(Sync, p);
    }
    if ops != [] {
      ApplyOne(d, [], Sync);
      assert [] + [Sync] == ops;
    }
    assert img.slots[0] == d.slots[0] && img.slots[1] == d.slots[1];
    assert img.slots == [img.slots[0], img.slots[1]];
    assert d.slots == [d.slots[0], d.slots[1]];
  }

  lemma FinalState(t: Tx)
    requires t.Ready()
    ensures ApplyAll(t.d, t.Script()) == Apply(ApplyAll(t.d, t.Body()), WriteSlot(t.NewLocator()))
    ensures Committing(t, ApplyAll(t.d, t.Script()))
  {
    var slot := WriteSlot(t.NewLocator());
    var staged := ApplyAll(t.d, t.Body());
    ApplyOne(t.d, t.Body(), slot);
    ApplyOne(t.d, t.Body() + [slot], Sync);
    assert t.Script() == t.Body() + [slot] + [Sync];
    ApplyIsImage(staged, [slot]);
    ApplyOne(staged, [], slot);
    assert [] + [slot] == [slot];
  }

  lemma ScriptPrefixes(t: Tx)
    requires t.Ready()
    ensures forall k :: 0 <= k <= |t.Body()| ==> t.Script()[..k] == t.Body()[..k]
    ensures t.Script()[..|t.Body()| + 1] == t.Body() + [WriteSlot(t.NewLocator())]
    ensures t.Script()[..|t.Body()| + 2] == t.Script()
  {
  }

  /** Every crash leaves the file either before or at the commit. */
  lemma CrashCases(t: Tx, k: nat, img: DiskState)
    requires t.Ready() && k <= |t.Script()| && CrashImage(t.d, t.Script()[..k], img)
    ensures Staging(t, img) || Committing(t, img)
  {
    hide HistoryOk, FramesOn, RegionsIn, SlotOk, Placed, Cipher, ApplyAll, Image;
    ScriptPrefixes(t);
    var n, ops := |t.Body()|, t.Script()[..k];
    BodyEndsSynced(t);
    if k <= n {
      assert ops == t.Body()[..k];
      assert ops[..Synced(ops)] == t.Body()[..Synced(ops)] && ops[Synced(ops)..] == t.Body()[Synced(ops)..k];
      StagingWindow(t, Synced(ops), k, img);
    } else if k == n + 1 {
      SyncedPrefix(t.Body(), WriteSlot(t.NewLocator()));
      assert ops[..n] == t.Body() && ops[n..] == [WriteSlot(t.NewLocator())];
    } else {
      assert ops == t.Script() && Synced(ops) == |ops|;
      assert ops[..|ops|] == ops && ops[|ops|..] == [];
      NothingPending(ApplyAll(t.d, t.Script()), [], img);
      FinalState(t);
    }
  }

  /** Every instant of the transaction is either before or at the commit. */
  lemma InFlightCases(t: Tx, k: nat, img: DiskState)
    requires t.Ready() && k < |t.Script()| && InFlight(t.d, t.Script(), k, img)
    ensures k < |t.Body()| ==> Staging(t, img)
    ensures k >= |t.Body()| ==> Committing(t, img)
    ensures k > |t.Body()| ==> img == ApplyAll(t.d, t.Script())
  {
    hide HistoryOk, FramesOn, RegionsIn, SlotOk, Placed, Cipher, ApplyAll, Image, Tx.Body;
    ScriptPrefixes(t);
    var n := |t.Body()|;
    if k < n {
      assert [t.Script()[k]] == t.Body()[k..k + 1];
      StagingWindow(t, k, k + 1, img);
    } else if k == n {
      assert [t.Script()[k]] == [WriteSlot(t.NewLocator())];
      assert t.Script()[..n] == t.Body()[..n] == t.Body();
    } else {
      FinalState(t);
      ApplyOne(t.d, t.Body() + [WriteSlot(t.NewLocator())], Sync);
      assert t.Script() == t.Body() + [WriteSlot(t.NewLocator())] + [Sync];
      NothingPending(ApplyAll(t.d, t.Script()[..n + 1]), [Sync], img);
    }
  }

  // What each partial outcome keeps

  lemma LengthGrows(d: DiskState, ops: seq<Op>, j: nat)
    requires j <= |ops|
    ensures |ApplyAll(d, ops[..j]).bytes| <= |ApplyAll(d, ops).bytes|
  {
    ApplyPrefix(d, ops, j);
    ApplyIsImage(ApplyAll(d, ops[..j]), ops[j..]);
  }

  /** No write before the commit touches the front matter or a committed chunk. */
  lemma ChunksUntouched(t: Tx, p: int)
    requires t.Ready() && p < t.Tail()
    ensures !Touches(t.Body(), p)
  {
    BodyTouches(t, p);
  }

  lemma IndexUntouched(t: Tx, p: int)
    requires t.Ready() && Atomic(t) && Last(t.h).offset <= p < t.IndexEnd()
    ensures !Touches(t.Body(), p)
  {
    BodyTouches(t, p);
  }

  /** What the file keeps before the commit: slots, front matter and the chunk region. */
  lemma StagingBytes(t: Tx, img: DiskState)
    requires t.Ready() && Staging(t, img)
    ensures img.slots == t.d.slots && |t.d.bytes| <= |img.bytes| < U64_LIMIT
    ensures forall p :: 0 <= p < t.Tail() && p < |t.d.bytes| ==> img.bytes[p] == t.d.bytes[p]
    ensures Atomic(t) ==> img.bytes[Last(t.h).offset..t.IndexEnd()] == t.d.bytes[Last(t.h).offset..t.IndexEnd()]
  {
    var j :| 0 <= j <= |t.Body()| && Image(t.d, t.Body()[..j], img);
    var ops := t.Body()[..j];
    SameSlots(t, ops, img);
    LengthGrows(t.d, t.Body(), j);
    BodyStages(t);
    forall p | 0 <= p < t.Tail() && p < |t.d.bytes|
      ensures img.bytes[p] == t.d.bytes[p]
    {
      ChunksUntouched(t, p);
      if Touches(ops, p) { TouchesSub(ops, t.Body(), p); }
    }
    if Atomic(t) {
      forall p | Last(t.h).offset <= p < t.IndexEnd()
        ensures !Touches(ops, p)
      {
        IndexUntouched(t, p);
        if Touches(ops, p) { TouchesSub(ops, t.Body(), p); }
      }
      UntouchedSlice(t.d, ops, img, Last(t.h).offset, t.IndexEnd());
    }
  }

  lemma SameSlots(t: Tx, ops: seq<Op>, img: DiskState)
    requires t.Ready() && ops <= t.Body() && Image(t.d, ops, img)
    ensures img.slots == t.d.slots
  {
    BodyTouches(t, 0);
    assert forall i :: 0 <= i < |ops| ==> ops[i] in t.Body();
    assert img.slots[0] == t.d.slots[0] && img.slots[1] == t.d.slots[1];
    assert img.slots == [img.slots[0], img.slots[1]] && t.d.slots == [t.d.slots[0], t.d.slots[1]];
  }

  /** A file with the same slots and the same chunk region is as safe as the original. */
  lemma SafeKept(keys: Keys, d: DiskState, h: History, img: DiskState)
    requires Safe(keys, d, h)
    requires img.slots == d.slots && |d.bytes| <= |img.bytes| < U64_LIMIT
    requires forall p :: 0 <= p < Tail(h.records) && p < |d.bytes| ==> img.bytes[p] == d.bytes[p]
    ensures Safe(keys, img, h)
  {
    FramesKept(keys, h.records, d.bytes, img.bytes);
    forall s: SlotIndex ensures SlotOk(h, img, s) {
      assert SlotOk(h, d, s);
    }
  }

  /** Before the commit every committed chunk and the active locator are intact; the index region
      is too whenever the transaction is atomic. */
  lemma StagingKeeps(t: Tx, img: DiskState)
    requires t.Ready() && Staging(t, img)
    ensures Safe(t.keys, img, t.h)
    ensures Atomic(t) ==> Inv(t.keys, img, t.h)
  {
    hide Staging, Tx.Body, FramesOn, RegionsIn, HistoryOk, Cipher;
    StagingBytes(t, img);
    SafeKept(t.keys, t.d, t.h, img);
  }

  lemma CommittingBytes(t: Tx, img: DiskState)
    requires t.Ready() && Committing(t, img)
    ensures img.bytes == ApplyAll(t.d, t.Body()).bytes
    ensures img.slots[Last(t.h).slot] == t.d.slots[Last(t.h).slot]
    ensures var s: SlotIndex := 1 - Last(t.h).slot;
      img.slots[s] in {t.d.slots[s], Torn, Sealed(t.NewLocator())} && s == t.NewLocator().slot
  {
    hide FramesOn, RegionsIn, SlotOk, Tx.Body, Placed, ChunkRecords, Cipher;
    var staged, slot := ApplyAll(t.d, t.Body()), WriteSlot(t.NewLocator());
    BodyStages(t);
    assert CommitOk(t.keys, t.h, |t.h.commits| - 1);
    forall p {
      TouchesOne(slot, p);
    }
    ApplyOne(staged, [], slot);
    assert [] + [slot] == [slot];
  }

  /** The new history describes the staged file. */
  lemma AfterOk(t: Tx)
    requires t.Ready()
    ensures HistoryOk(t.keys, t.After())
    ensures Last(t.After()) == t.NewLocator()
  {
    hide FramesOn, SlotOk, RegionsIn, Cipher, Placed, Plain, Tx.NewRecords, Tx.Fits, Ledger.Tail;
    NewIndexLength(t);
    RecordsPlaced(t);
    var h := t.After();
    var top := |t.h.commits|;
    forall g | 0 <= g < |h.commits|
      ensures CommitOk(t.keys, h, g)
    {
      if g < top {
        assert CommitOk(t.keys, t.h, g);
        assert h.records[..h.commits[g].count] == t.h.records[..h.commits[g].count];
      } else {
        assert h.records[..|h.records|] == h.records;
      }
    }
  }

  lemma FramesOnAppend(keys: Keys, bytes: seq<byte>, a: seq<Record>, b: seq<Record>)
    requires FramesOn(keys, bytes, a) && FramesOn(keys, bytes, b)
    ensures FramesOn(keys, bytes, a + b)
  {
    forall i | 0 <= i < |a + b| ensures FrameOn(keys, bytes, (a + b)[i]) {
      assert (a + b)[i] == if i < |a| then a[i] else b[i - |a|];
    }
  }

  lemma OldFramesStaged(t: Tx)
    requires t.Ready()
    ensures FramesOn(t.keys, ApplyAll(t.d, t.Body()).bytes, t.h.records)
  {
    var staged := ApplyAll(t.d, t.Body());
    ApplyIsImage(t.d, t.Body());
    assert t.Body()[..|t.Body()|] == t.Body();
    StagingBytes(t, staged);
    FramesKept(t.keys, t.h.records, t.d.bytes, staged.bytes);
  }

  lemma NewFramesStaged(t: Tx)
    requires t.Ready()
    ensures FramesOn(t.keys, ApplyAll(t.d, t.Body()).bytes, t.NewChunkRecords())
  {
    hide HistoryOk, FramesOn, RegionsIn, SlotOk, ApplyAll, Tx.Body, Placed, ChunkRecords;
    BodyStages(t);
    PlannedFramesOn(t.keys, t.ent, t.Tail(), t.req.chunks, ApplyAll(t.d, t.Body()).bytes);
  }

  lemma AfterFrames(t: Tx)
    requires t.Ready()
    ensures FramesOn(t.keys, ApplyAll(t.d, t.Body()).bytes, t.Records()) && t.After().records == t.Records()
  {
    var bytes := ApplyAll(t.d, t.Body()).bytes;
    OldFramesStaged(t);
    NewFramesStaged(t);
    FramesOnAppend(t.keys, bytes, t.NewChunkRecords(), CompleteRecords(t.req.completed));
    FramesOnAppend(t.keys, bytes, t.h.records, t.NewRecords());
  }

  /** At the commit every chunk of the new history is on the file. */
  lemma CommittingReadable(t: Tx, img: DiskState)
    requires t.Ready() && Committing(t, img)
    ensures Readable(t.keys, img, t.After())
  {
    hide *;
    CommittingBytes(t, img);
    AfterOk(t);
    AfterFrames(t);
    CommittingSlots(t, img);
    RegionsAfter(t);
    MakeReadable(t.keys, img, ApplyAll(t.d, t.Body()), t.After());
  }

  /** The file has grown with the index, so every committed region is still within it. */
  lemma RegionsAfter(t: Tx)
    requires t.Ready()
    ensures RegionsIn(t.After(), ApplyAll(t.d, t.Body()))
  {
    hide HistoryOk, FramesOn, SlotOk, Placed, Cipher, ApplyAll, Tx.Body, Frames, Join, Plain;
    BodyStages(t);
    NewIndexLength(t);
    var h, staged := t.After(), ApplyAll(t.d, t.Body());
    forall g | 0 <= g < |h.commits|
      ensures h.commits[g].locator.offset + h.commits[g].locator.length <= |staged.bytes|
    {
      if g < |t.h.commits| {
        assert h.commits[g] == t.h.commits[g];
      }
    }
  }

  lemma MakeReadable(keys: Keys, img: DiskState, staged: DiskState, h: History)
    requires HistoryOk(keys, h) && SlotOk(h, img, 0) && SlotOk(h, img, 1)
    requires img.bytes == staged.bytes && FramesOn(keys, staged.bytes, h.records) && RegionsIn(h, staged)
    ensures Readable(keys, img, h)
  {
  }

  lemma CommittedIndex(t: Tx, img: DiskState)
    requires t.Ready() && Committing(t, img)
    requires img.slots[t.NewLocator().slot] == Sealed(t.NewLocator())
    ensures Inv(t.keys, img, t.After())
  {
    hide FramesOn, RegionsIn, Tx.Body, Placed, ChunkRecords, Cipher, ApplyAll, Image;
    CommittingReadable(t, img);
    CommittingBytes(t, img);
    AfterOk(t);
    BodyStages(t);
    NewIndexLength(t);
    RecordsPlaced(t);
  }

  lemma UncommittedSafe(t: Tx, img: DiskState)
    requires t.Ready() && Committing(t, img)
    requires img.slots[t.NewLocator().slot] != Sealed(t.NewLocator())
    ensures Safe(t.keys, img, t.h)
    ensures Atomic(t) ==> Inv(t.keys, img, t.h)
  {
    var staged := ApplyAll(t.d, t.Body());
    CommittingBytes(t, img);
    CommittingSlots(t, img);
    ApplyIsImage(t.d, t.Body());
    assert t.Body()[..|t.Body()|] == t.Body();
    StagingKeeps(t, staged);
  }

  /** At the commit everything either history needs is on the file. */
  lemma CommittingKeeps(t: Tx, img: DiskState)
    requires t.Ready() && Committing(t, img)
    ensures Readable(t.keys, img, t.After())
    ensures img.slots[t.NewLocator().slot] == Sealed(t.NewLocator()) ==> Inv(t.keys, img, t.After())
    ensures img.slots[t.NewLocator().slot] != Sealed(t.NewLocator()) ==> Safe(t.keys, img, t.h)
    ensures img.slots[t.NewLocator().slot] != Sealed(t.NewLocator()) && Atomic(t) ==> Inv(t.keys, img, t.h)
  {
    CommittingReadable(t, img);
    if img.slots[t.NewLocator().slot] == Sealed(t.NewLocator()) {
      CommittedIndex(t, img);
    } else {
      UncommittedSafe(t, img);
    }
  }

  /** A slot that is as it was, torn, or holds the newest commit is sound. */
  lemma SlotKept(h: History, now: History, d: DiskState, img: DiskState, s: SlotIndex, top: nat)
    requires top == |h.commits| && |now.commits| == top + 1 && now.commits[..top] == h.commits
    requires SlotOk(h, d, s)
    requires img.slots[s] in {d.slots[s], Torn, Sealed(now.commits[top].locator)}
    requires img.slots[s] == Sealed(now.commits[top].locator) ==> top % 2 == s || img.slots[s] == d.slots[s]
    ensures SlotOk(now, img, s)
    ensures img.slots[s] in {d.slots[s], Torn} ==> SlotOk(h, img, s)
  {
    if img.slots[s] == d.slots[s] && img.slots[s] != Torn {
      var g :| 0 <= g < top && g % 2 == s && d.slots[s] == Sealed(h.commits[g].locator);
      assert now.commits[g] == h.commits[g];
    }
  }

  /** The new commit goes to the slot the last one is not in. */
  lemma NewSlot(t: Tx)
    requires t.Ready()
    ensures t.h.commits != [] && SlotOk(t.h, t.d, 0) && SlotOk(t.h, t.d, 1)
    ensures |t.After().commits| == |t.h.commits| + 1 && t.After().commits[..|t.h.commits|] == t.h.commits
    ensures t.After().commits[|t.h.commits|].locator == t.NewLocator()
    ensures t.NewLocator().slot == |t.h.commits| % 2 && Last(t.h).slot == 1 - t.NewLocator().slot
  {
    hide FramesOn, RegionsIn, Placed, Cipher, SlotOk, Tx.Records;
    assert CommitOk(t.keys, t.h, |t.h.commits| - 1);
  }

  lemma CommittingSlots(t: Tx, img: DiskState)
    requires t.Ready() && Committing(t, img)
    ensures SlotOk(t.After(), img, 0) && SlotOk(t.After(), img, 1)
    ensures img.slots[t.NewLocator().slot] != Sealed(t.NewLocator()) ==> SlotOk(t.h, img, 0) && SlotOk(t.h, img, 1)
  {
    hide *;
    CommittingBytes(t, img);
    NewSlot(t);
    SlotKept(t.h, t.After(), t.d, img, 0, |t.h.commits|);
    SlotKept(t.h, t.After(), t.d, img, 1, |t.h.commits|);
  }

  // Main results

  /** A transaction changes one slot, the inactive one. */
  lemma OneSlotWritten(t: Tx)
    requires t.Ready()
    ensures ApplyAll(t.d, t.Script()).slots == t.d.slots[1 - Last(t.h).slot := Sealed(t.NewLocator())]
  {
    hide Placed, FramesOn, RegionsIn, SlotOk, Cipher, Tx.Body, Tx.Script, ChunkRecords, Join, Frames;
    BodyStages(t);
    FinalState(t);
    assert CommitOk(t.keys, t.h, |t.h.commits| - 1);
  }

  /** An uninterrupted transaction reaches the committed state. */
  lemma CommitReached(t: Tx)
    requires t.Ready()
    ensures Inv(t.keys, ApplyAll(t.d, t.Script()), t.After())
  {
    FinalState(t);
    CommittingKeeps(t, ApplyAll(t.d, t.Script()));
  }

  /** Crash atomicity.  However an atomic transaction is cut short, the file is again in a committed
      state of the old history or of the new one, and reopening reads exactly that index. */
  lemma CrashAtomic(t: Tx, k: nat, img: DiskState)
    requires t.Ready() && Atomic(t)
    requires k <= |t.Script()| && CrashImage(t.d, t.Script()[..k], img)
    ensures || (Inv(t.keys, img, t.h) && ReadActive(t.keys, img) == Ok(LoadedOf(t.h.records)))
            || (Inv(t.keys, img, t.After()) && ReadActive(t.keys, img) == Ok(LoadedOf(t.Records())))
  {
    CrashCases(t, k, img);
    if Staging(t, img) {
      StagingKeeps(t, img);
    } else {
      CommittingKeeps(t, img);
    }
    if Inv(t.keys, img, t.h) {
      ReadActiveCommitted(t.keys, img, t.h);
    } else {
      ReadActiveCommitted(t.keys, img, t.After());
    }
  }

  /** Even when the index is lost, no crash damages a committed chunk. */
  lemma CrashKeepsChunks(t: Tx, k: nat, img: DiskState)
    requires t.Ready() && k <= |t.Script()| && CrashImage(t.d, t.Script()[..k], img)
    ensures FramesOn(t.keys, img.bytes, t.h.records)
    ensures Safe(t.keys, img, t.h) || Inv(t.keys, img, t.After())
  {
    CrashCases(t, k, img);
    if Staging(t, img) {
      StagingKeeps(t, img);
    } else {
      CommittingKeeps(t, img);
      FramesPart(t, img);
    }
  }

  lemma FramesPart(t: Tx, img: DiskState)
    requires t.Ready() && FramesOn(t.keys, img.bytes, t.Records())
    ensures FramesOn(t.keys, img.bytes, t.h.records)
  {
    forall i | 0 <= i < |t.h.records| ensures FrameOn(t.keys, img.bytes, t.h.records[i]) {
      assert FrameOn(t.keys, img.bytes, t.Records()[i]);
    }
  }

  /** An overlapped position of the old index region. */
  lemma OverlapPoint(t: Tx) returns (p: nat)
    requires t.Ready() && !Atomic(t)
    ensures Last(t.h).offset <= p < t.IndexEnd() && Touches(t.Body(), p)
    ensures p < |t.d.bytes|
  {
    p := if t.Tail() + t.ChunkLen() > Last(t.h).offset then Last(t.h).offset
         else Max(Last(t.h).offset, t.IndexAt());
    BodyTouches(t, p);
  }

  ghost function Flipped(d: DiskState, p: nat): DiskState
    requires p < |d.bytes|
  {
    d.(bytes := d.bytes[p := if d.bytes[p] == 0 then 1 else 0])
  }

  lemma FlippedSlice(d: DiskState, p: nat, lo: nat, hi: nat)
    requires lo <= p < hi <= |d.bytes|
    ensures Flipped(d, p).bytes[lo..hi] != d.bytes[lo..hi]
  {
    assert Flipped(d, p).bytes[lo..hi][p - lo] != d.bytes[lo..hi][p - lo];
  }

  /** Losing any one byte an unsynchronised relocation writes is a possible outcome. */
  lemma FlipIsCrash(t: Tx, p: nat)
    requires t.Ready() && t.Relocates() && p < |t.d.bytes| && Touches(t.Body(), p)
    ensures var k := |t.Body()| - 1;
      && k >= 0
      && Image(t.d, t.Body()[..k], Flipped(t.d, p))
      && CrashImage(t.d, t.Script()[..k], Flipped(t.d, p))
  {
    var ops := t.Body()[..|t.Body()| - 1];
    ScriptPrefixes(t);
    assert t.Body() == ops + [Sync];
    TouchesAppend(ops, [Sync], p);
    TouchesOne(Sync, p);
    RelocationUnsynced(t);
    ApplyIsImage(t.d, ops);
    assert ops[..0] == [] && ops[0..] == ops;
  }

  lemma FlipDamages(t: Tx, p: nat)
    requires t.Ready() && Last(t.h).offset <= p < t.IndexEnd() && Staging(t, Flipped(t.d, p))
    ensures ReadActive(t.keys, Flipped(t.d, p)) == Err(IndexMacMismatch) && Safe(t.keys, Flipped(t.d, p), t.h)
  {
    hide ReadActive, Staging, FramesOn, RegionsIn, SlotOk, Flipped;
    StagingKeeps(t, Flipped(t.d, p));
    FlippedSlice(t.d, p, Last(t.h).offset, t.IndexEnd());
    ReadActiveDamaged(t.keys, Flipped(t.d, p), t.h);
  }

  /** A relocation that overlaps the old index region can lose the index in a crash. */
  lemma RelocationCanLoseIndex(t: Tx) returns (k: nat, img: DiskState)
    requires t.Ready() && !Atomic(t)
    ensures k <= |t.Script()| && CrashImage(t.d, t.Script()[..k], img)
    ensures ReadActive(t.keys, img) == Err(IndexMacMismatch) && Safe(t.keys, img, t.h) && img.slots == t.d.slots
  {
    hide ReadActive, CrashImage, Image, ApplyAll, HistoryOk, Tx.Body;
    var p := OverlapPoint(t);
    k, img := |t.Body()| - 1, Flipped(t.d, p);
    FlipIsCrash(t, p);
    assert t.Relocates();
    FlipDamages(t, p);
  }

  lemma {:induction false} NoSync(ops: seq<Op>)
    requires forall i :: 0 <= i < |ops| ==> ops[i] != Sync
    ensures Synced(ops) == 0
  {
    if ops == [] {
    } else {
      NoSync(ops[..|ops| - 1]);
    }
  }

  /** A relocation synchronises only once, after all of its writes. */
  lemma RelocationUnsynced(t: Tx)
    requires t.Ready() && t.Relocates()
    ensures Synced(t.Body()[..|t.Body()| - 1]) == 0
  {
    hide HistoryOk, FramesOn, RegionsIn, SlotOk, Placed, Cipher, Touches, Frames, PieceOps, Tx.FrameOps, Tx.GrowthOps;
    GrowthTouches(t, 0);
    FramesTouch(t, 0);
    var entries := Write(t.IndexAt() + Last(t.h).length, t.EntryCipher());
    var ops := t.GrowthOps() + t.MoveOps() + [entries] + t.FrameOps();
    forall i | 0 <= i < |ops| ensures ops[i].Write? {
      assert ops[i] in t.GrowthOps() || ops[i] in t.MoveOps() || ops[i] == entries || ops[i] in t.FrameOps();
    }
    assert t.Body()[..|t.Body()| - 1] == ops;
    NoSync(ops);
  }

  ghost predicate OldOrNewAfterCrash(t: Tx, k: int, img: DiskState)
    requires t.Ready()
  {
    0 <= k <= |t.Script()| && CrashImage(t.d, t.Script()[..k], img) ==>
      ReadActive(t.keys, img) in {Ok(LoadedOf(t.h.records)), Ok(LoadedOf(t.Records()))}
  }

  /** Exactly when a transaction is crash-atomic: when it appends, or when the ranges it writes are
      clear of the old index region. */
  lemma CrashAtomicIff(t: Tx)
    requires t.Ready()
    ensures (forall k, img :: OldOrNewAfterCrash(t, k, img)) <==> Atomic(t)
  {
    if Atomic(t) {
      forall k, img ensures OldOrNewAfterCrash(t, k, img) {
        if 0 <= k <= |t.Script()| && CrashImage(t.d, t.Script()[..k], img) {
          CrashAtomic(t, k, img);
        }
      }
    } else {
      var k, img := RelocationCanLoseIndex(t);
      assert !OldOrNewAfterCrash(t, k, img);
    }
  }
}
