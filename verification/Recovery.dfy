/** What a refresh finds on a file, damaged or not: the newest commit whose index is intact. */
module Recovery {
  import opened Basics
  import opened Crypto
  import opened Disk
  import opened Ledger
  import opened Commits
  import opened Crash
  import opened Handles

  /** A slot holds the commit's locator and the file holds the index the locator describes. */
  ghost predicate IndexIntact(keys: Keys, d: DiskState, h: History, g: nat) {
    && g < |h.commits| && h.commits[g].count <= |h.records|
    && var l := h.commits[g].locator;
       && d.slots[g % 2] == Sealed(l) && l.slot == g % 2 && l.offset + l.length <= |d.bytes|
       && d.bytes[l.offset..l.offset + l.length] == Cipher(keys, h.records[..h.commits[g].count])
  }

  ghost function SnapshotAt(h: History, g: nat): Snapshot
    requires g < |h.commits| && h.commits[g].count <= |h.records|
  {
    var rs := h.records[..h.commits[g].count];
    Snapshot(h.commits[g].locator, IndexOf(rs), Plain(rs))
  }

  /** The answer is the newest intact commit.  It is an error exactly when there is none, and which error
      says whether any slot opens at all. */
  ghost predicate NewestIntact(keys: Keys, d: DiskState, h: History, r: Result<Snapshot>) {
    match r
    case Ok(s) =>
      exists g :: 0 <= g && IndexIntact(keys, d, h, g) && s == SnapshotAt(h, g)
                  && forall g' :: g < g' ==> !IndexIntact(keys, d, h, g')
    case Err(e) =>
      && (forall g: nat :: !IndexIntact(keys, d, h, g))
      && e == if d.slots[0] == Torn && d.slots[1] == Torn then NoValidLocator else RetryBudgetExceeded
  }

  /** The commit in a slot of a readable file loads exactly when it is intact, and otherwise fails its MAC. */
  lemma SlotLoads(keys: Keys, d: DiskState, h: History, s: SlotIndex) returns (g: nat)
    requires Readable(keys, d, h) && d.slots[s] != Torn
    ensures g < |h.commits| && g % 2 == s && h.commits[g].count <= |h.records| && h.commits[g].locator.generation == g
    ensures SlotLocator(d, s) == Some(h.commits[g].locator)
    ensures forall f :: 0 <= f && f % 2 == s && IndexIntact(keys, d, h, f) ==> f == g
    ensures LoadIndex(keys, d, h.commits[g].locator)
         == if IndexIntact(keys, d, h, g) then Ok(LoadedOf(h.records[..h.commits[g].count])) else Err(IndexMacMismatch)
  {
    hide FramesOn, Placed, OpenIndex, Cipher, Plain, IndexOf;
    assert SlotOk(h, d, s);
    g :| 0 <= g < |h.commits| && g % 2 == s && d.slots[s] == Sealed(h.commits[g].locator);
    var l := h.commits[g].locator;
    assert CommitOk(keys, h, g);
    OpenCommitted(keys, h, g, d.bytes[l.offset..l.offset + l.length]);
    assert l.length == 0 ==> d.bytes[l.offset..l.offset + l.length] == [];
    forall f | 0 <= f && f % 2 == s && IndexIntact(keys, d, h, f) ensures f == g {
      assert CommitOk(keys, h, f);
    }
  }

  lemma Tries(keys: Keys, d: DiskState, x: Locator, rest: seq<Locator>)
    ensures var loaded := LoadIndex(keys, d, x);
      && (loaded.Ok? ==> RefreshFrom(keys, d, [x] + rest) == Ok(Snapshot(x, loaded.value.index, loaded.value.plaintext)))
      && (loaded == Err(IndexMacMismatch) ==> RefreshFrom(keys, d, [x] + rest) == RefreshFrom(keys, d, rest))
    ensures RefreshFrom(keys, d, []) == Err(RetryBudgetExceeded)
  {
    hide LoadIndex;
    assert ([x] + rest)[1..] == rest;
  }

  /** Whatever is in the slots and index regions of a readable file, a refresh gives the newest commit whose
      index is intact, and fails exactly when none is.  It never fails to parse and never finds the file
      too short. */
  lemma RefreshNewest(keys: Keys, d: DiskState, h: History)
    requires Readable(keys, d, h)
    ensures NewestIntact(keys, d, h, Refresh(keys, d))
  {
    hide Readable, LoadIndex, IndexIntact, IndexOf, Plain, RefreshFrom;
    forall c: nat ensures IndexIntact(keys, d, h, c) ==> d.slots[c % 2] != Torn {
      IntactSlot(keys, d, h, c);
    }
    if d.slots[0] != Torn && d.slots[1] != Torn {
      var f := SlotLoads(keys, d, h, 0);
      var g := SlotLoads(keys, d, h, 1);
      if f > g { TwoSlots(keys, d, h, f, g); } else { TwoSlots(keys, d, h, g, f); }
    } else if d.slots[0] != Torn {
      OneSlot(keys, d, h, 0);
    } else if d.slots[1] != Torn {
      OneSlot(keys, d, h, 1);
    }
  }

  lemma OneSlot(keys: Keys, d: DiskState, h: History, s: SlotIndex)
    requires Readable(keys, d, h) && d.slots[s] != Torn && d.slots[1 - s] == Torn
    ensures NewestIntact(keys, d, h, Refresh(keys, d))
  {
    hide Readable, LoadIndex, IndexIntact, IndexOf, Plain, RefreshFrom;
    var g := SlotLoads(keys, d, h, s);
    Tries(keys, d, h.commits[g].locator, []);
    assert [h.commits[g].locator] + [] == [h.commits[g].locator];
    forall c: nat ensures IndexIntact(keys, d, h, c) ==> c == g {
      IntactSlot(keys, d, h, c);
    }
  }

  lemma TwoSlots(keys: Keys, d: DiskState, h: History, f: nat, g: nat)
    requires Readable(keys, d, h) && d.slots[0] != Torn && d.slots[1] != Torn
    requires g < f < |h.commits| && f % 2 != g % 2
    requires h.commits[f].locator.generation == f && h.commits[g].locator.generation == g
    requires SlotLocator(d, f % 2) == Some(h.commits[f].locator) && SlotLocator(d, g % 2) == Some(h.commits[g].locator)
    ensures NewestIntact(keys, d, h, Refresh(keys, d))
  {
    hide Readable, LoadIndex, IndexIntact, IndexOf, Plain, RefreshFrom, SlotLocator;
    var f' := SlotLoads(keys, d, h, f % 2);
    var g' := SlotLoads(keys, d, h, g % 2);
    var x, y := h.commits[f].locator, h.commits[g].locator;
    assert SortedLocators(d) == Ok([x, y]);
    assert [x] + [y] == [x, y] && [y] + [] == [y];
    Tries(keys, d, x, [y]);
    Tries(keys, d, y, []);
    forall c: nat ensures IndexIntact(keys, d, h, c) ==> c == f || c == g {
      assert c % 2 == f % 2 || c % 2 == g % 2;
    }
  }

  lemma IntactSlot(keys: Keys, d: DiskState, h: History, g: nat)
    ensures IndexIntact(keys, d, h, g) ==> d.slots[g % 2] != Torn
  {
  }

  /** What holds of the old history holds of the new one while the new commit is not on the file. */
  lemma NotLanded(t: Tx, img: DiskState, r: Result<Snapshot>)
    requires t.Ready() && Readable(t.keys, img, t.h) && NewestIntact(t.keys, img, t.h, r)
    ensures NewestIntact(t.keys, img, t.After(), r)
  {
    hide Tx.Ready, Tx.NewRecords, Inv, FramesOn, RegionsIn, Placed, Cipher, Plain, IndexOf;
    var h := t.After();
    forall g: nat ensures IndexIntact(t.keys, img, h, g) <==> IndexIntact(t.keys, img, t.h, g) {
      if g < |t.h.commits| {
        EarlierCommit(t, g);
      } else if IndexIntact(t.keys, img, h, g) {
        var f := SlotLoads(t.keys, img, t.h, g % 2);
        assert false;
      }
    }
    if r.Ok? {
      var g :| 0 <= g && IndexIntact(t.keys, img, t.h, g) && r.value == SnapshotAt(t.h, g)
               && forall g' :: g < g' ==> !IndexIntact(t.keys, img, t.h, g');
      EarlierCommit(t, g);
      assert SnapshotAt(h, g) == SnapshotAt(t.h, g);
      assert IndexIntact(t.keys, img, h, g);
    }
  }

  lemma EarlierCommit(t: Tx, g: nat)
    requires t.Ready() && g < |t.h.commits|
    ensures t.After().commits[g] == t.h.commits[g] && t.h.commits[g].count <= |t.h.records|
    ensures t.After().records[..t.h.commits[g].count] == t.h.records[..t.h.commits[g].count]
  {
    hide FramesOn, RegionsIn, SlotOk, Placed, Tx.NewRecords, Cipher;
    assert CommitOk(t.keys, t.h, g);
  }

  /** After any crash of any transaction, atomic or not, a refresh gives the newest commit whose index is
      intact: the new one if it has landed, else the last one, or the one before if that is lost. */
  lemma RefreshAfterCrash(t: Tx, k: nat, img: DiskState)
    requires t.Ready() && k <= |t.Script()| && CrashImage(t.d, t.Script()[..k], img)
    ensures NewestIntact(t.keys, img, t.After(), Refresh(t.keys, img))
    ensures Refresh(t.keys, img) != Err(NoValidLocator)
  {
    hide CrashImage, Tx.Script, Refresh, FramesOn, SlotOk, RegionsIn, HistoryOk, Cipher, IndexIntact;
    CrashKeepsChunks(t, k, img);
    if Safe(t.keys, img, t.h) {
      RefreshNewest(t.keys, img, t.h);
      NotLanded(t, img, Refresh(t.keys, img));
    } else {
      RefreshNewest(t.keys, img, t.After());
    }
  }

  /** If the last index is lost, and the slot and the index of the commit before it are intact, a refresh
      goes back to that commit. */
  lemma FallsBack(keys: Keys, d: DiskState, h: History)
    requires Safe(keys, d, h) && ReadActive(keys, d) == Err(IndexMacMismatch) && |h.commits| >= 2
    requires IndexIntact(keys, d, h, |h.commits| - 2)
    ensures Refresh(keys, d) == Ok(SnapshotAt(h, |h.commits| - 2))
  {
    hide HistoryOk, FramesOn, RegionsIn, SlotOk, Plain, IndexOf, Cipher;
    var top := |h.commits| - 1;
    if IndexIntact(keys, d, h, top) {
      ActiveIsLast(keys, d, h);
      IntactLoads(keys, d, h, top);
      assert false;
    }
    RefreshNewest(keys, d, h);
  }

  lemma IntactLoads(keys: Keys, d: DiskState, h: History, g: nat)
    requires Readable(keys, d, h) && IndexIntact(keys, d, h, g)
    ensures LoadIndex(keys, d, h.commits[g].locator) == Ok(LoadedOf(h.records[..h.commits[g].count]))
  {
    hide LoadIndex, Plain, IndexOf, Readable;
    var f := SlotLoads(keys, d, h, g % 2);
  }
}
