/** Readers that take no lock, interleaved with a writer byte by byte. */
module Readers {
  import opened Basics
  import opened IndexCodec
  import opened Crypto
  import opened Disk
  import opened Ledger
  import opened Commits
  import opened Crash

  /** A blob and its writer: between transactions, or with `done` operations of `tx` complete and the
      next one under way. */
  datatype System = System(d: DiskState, h: History, tx: Option<Tx>, done: nat)

  ghost predicate SystemOk(keys: Keys, s: System) {
    match s.tx
    case None => Inv(keys, s.d, s.h)
    case Some(t) =>
      && t.keys == keys && t.Ready() && t.h == s.h
      && s.done <= |t.Script()|
      && (if s.done < |t.Script()| then InFlight(t.d, t.Script(), s.done, s.d)
          else s.d == ApplyAll(t.d, t.Script()))
  }

  /** The writer takes the lock and plans a transaction. */
  ghost predicate Begins(keys: Keys, s: System, s': System) {
    && s.tx.None? && s'.tx.Some? && s'.done == 0 && s'.d == s.d && s'.h == s.h
    && s'.tx.value.keys == keys && s'.tx.value.Ready() && s'.tx.value.d == s.d && s'.tx.value.h == s.h
  }

  /** Any part of the operation under way takes effect. */
  ghost predicate Progresses(keys: Keys, s: System, s': System) {
    && s.tx.Some? && s.tx.value.Ready() && s.done < |s.tx.value.Script()|
    && s' == s.(d := s'.d)
    && InFlight(s.tx.value.d, s.tx.value.Script(), s.done, s'.d)
  }

  /** The operation under way completes. */
  ghost predicate Completes(keys: Keys, s: System, s': System) {
    && s.tx.Some? && s.tx.value.Ready() && s.done < |s.tx.value.Script()|
    && s' == s.(d := ApplyAll(s.tx.value.d, s.tx.value.Script()[..s.done + 1]), done := s.done + 1)
  }

  /** The writer releases the lock. */
  ghost predicate Ends(keys: Keys, s: System, s': System) {
    && s.tx.Some? && s.tx.value.Ready() && s.done == |s.tx.value.Script()|
    && s' == System(s.d, s.tx.value.After(), None, 0)
  }

  /** Power is lost in a crash-atomic transaction, and the blob is reopened. */
  ghost predicate Crashes(keys: Keys, s: System, s': System) {
    && s.tx.Some? && s.tx.value.Ready() && Atomic(s.tx.value)
    && (exists k :: 0 <= k <= |s.tx.value.Script()| && CrashImage(s.tx.value.d, s.tx.value.Script()[..k], s'.d))
    && s'.tx.None? && s'.done == 0
    && s'.h == if Inv(keys, s'.d, s.h) then s.h else s.tx.value.After()
  }

  ghost predicate Step(keys: Keys, s: System, s': System) {
    Begins(keys, s, s') || Progresses(keys, s, s') || Completes(keys, s, s') || Ends(keys, s, s')
  }

  /** A run without a crash. */
  ghost predicate Run(keys: Keys, run: seq<System>) {
    && run != [] && SystemOk(keys, run[0])
    && forall i {:trigger run[i]} :: 0 <= i < |run| - 1 ==> Step(keys, run[i], run[i + 1])
  }

  /** The commits whose slot write has at least begun. */
  ghost function Landed(s: System): History {
    if s.tx.Some? && s.tx.value.Ready() && s.done >= |s.tx.value.Body()| then s.tx.value.After() else s.h
  }

  // The writer's steps

  lemma ImageOfItself(d: DiskState, op: Op)
    ensures Image(d, [op], d)
  {
    ApplyOne(d, [], op);
    assert [] + [op] == [op];
  }

  /** Every step, crashes included, keeps the system consistent. */
  lemma StepKeepsSystem(keys: Keys, s: System, s': System)
    requires SystemOk(keys, s) && (Step(keys, s, s') || Crashes(keys, s, s'))
    ensures SystemOk(keys, s')
  {
    hide Inv, Tx.Script, Image;
    if Begins(keys, s, s') {
      var t := s'.tx.value;
      assert t.Script() != [] by { ScriptLength(t); }
      assert t.Script()[..0] == [];
      ImageOfItself(s.d, t.Script()[0]);
    } else if Progresses(keys, s, s') {
    } else if Completes(keys, s, s') {
      var t := s.tx.value;
      if s'.done < |t.Script()| {
        ImageOfItself(s'.d, t.Script()[s'.done]);
      } else {
        assert t.Script()[..s'.done] == t.Script();
      }
    } else if Ends(keys, s, s') {
      CommitReached(s.tx.value);
    } else {
      var t := s.tx.value;
      var k :| 0 <= k <= |t.Script()| && CrashImage(t.d, t.Script()[..k], s'.d);
      CrashAtomic(t, k, s'.d);
    }
  }

  lemma ScriptLength(t: Tx)
    requires t.Ready()
    ensures |t.Script()| == |t.Body()| + 2
  {
  }

  /** At every instant, every landed commit is readable and every slot that opens is one of them. */
  lemma AlwaysReadable(keys: Keys, s: System)
    requires SystemOk(keys, s)
    ensures Readable(keys, s.d, Landed(s)) && |s.d.bytes| < U64_LIMIT
  {
    if s.tx.Some? {
      var t := s.tx.value;
      ScriptLength(t);
      WriterBytes(keys, s);
      if s.done < |t.Body()| {
        InFlightCases(t, s.done, s.d);
        StagingKeeps(t, s.d);
      } else {
        AtCommit(keys, s);
        CommittingKeeps(t, s.d);
      }
    }
  }

  lemma AtCommit(keys: Keys, s: System)
    requires SystemOk(keys, s) && s.tx.Some? && s.done >= |s.tx.value.Body()|
    ensures Committing(s.tx.value, s.d)
  {
    var t := s.tx.value;
    ScriptLength(t);
    if s.done < |t.Script()| {
      InFlightCases(t, s.done, s.d);
    } else {
      FinalState(t);
    }
  }

  /** During a transaction the chunk region never differs from what it was at the start, and from the
      commit on no byte of the file changes. */
  lemma WriterBytes(keys: Keys, s: System)
    requires SystemOk(keys, s) && s.tx.Some?
    ensures var t := s.tx.value;
      && |t.d.bytes| <= |s.d.bytes| < U64_LIMIT
      && (forall p :: 0 <= p < t.Tail() && p < |t.d.bytes| ==> s.d.bytes[p] == t.d.bytes[p])
      && (s.done >= |t.Body()| ==> s.d.bytes == ApplyAll(t.d, t.Body()).bytes)
  {
    var t := s.tx.value;
    ScriptLength(t);
    if s.done < |t.Body()| {
      InFlightCases(t, s.done, s.d);
      StagingBytes(t, s.d);
    } else {
      AtCommit(keys, s);
      CommittingBytes(t, s.d);
      BodyStages(t);
      var staged := ApplyAll(t.d, t.Body());
      ApplyIsImage(t.d, t.Body());
      assert t.Body()[..|t.Body()|] == t.Body();
      StagingBytes(t, staged);
    }
  }

  predicate SameByte(a: seq<byte>, b: seq<byte>, p: nat) {
    p < |a| && p < |b| && a[p] == b[p]
  }

  /** The landed chunk region of one state is unchanged in another. */
  ghost predicate ChunksKept(s: System, s': System) {
    && Continues(Landed(s), Landed(s'))
    && forall p: nat :: FRONT_MATTER_LEN <= p < Tail(Landed(s).records) ==> SameByte(s.d.bytes, s'.d.bytes, p)
  }

  lemma AfterExtends(t: Tx)
    requires t.Ready()
    ensures Continues(t.h, t.After())
  {
  }

  lemma SameTransactionKeeps(keys: Keys, s: System, s': System)
    requires SystemOk(keys, s) && SystemOk(keys, s')
    requires s.tx.Some? && s'.tx == s.tx && s'.h == s.h && s.done <= s'.done
    ensures ChunksKept(s, s')
  {
    var t := s.tx.value;
    assert t.Ready() && t.h == s.h;
    WriterBytes(keys, s);
    WriterBytes(keys, s');
    LandedTail(keys, s);
    AfterExtends(t);
    hide SystemOk, Inv, Tx.After, Tx.Body, ApplyAll, Tail, Continues;
    if s.done >= |t.Body()| {
      assert Landed(s) == Landed(s') == t.After() && s.d.bytes == s'.d.bytes;
      assert Continues(t.After(), t.After()) by { SelfExtends(t.After()); }
    } else {
      assert Landed(s) == t.h && Landed(s') in {t.h, t.After()};
      SelfExtends(t.h);
      LowTail(t);
    }
  }

  lemma SelfExtends(h: History)
    ensures Continues(h, h)
  {
  }

  lemma LowTail(t: Tx)
    requires t.Ready()
    ensures Tail(t.h.records) == t.Tail() <= |t.d.bytes|
  {
  }

  lemma SameBytesKeep(s: System, s': System)
    requires Landed(s') == Landed(s) && s'.d == s.d && Tail(Landed(s).records) <= |s.d.bytes|
    ensures ChunksKept(s, s')
  {
  }

  /** A step never changes a byte of a landed chunk, and never retracts a commit. */
  lemma StepKeepsChunks(keys: Keys, s: System, s': System)
    requires SystemOk(keys, s) && Step(keys, s, s')
    ensures SystemOk(keys, s') && ChunksKept(s, s')
  {
    hide SystemOk, ChunksKept, Inv, InFlight, Tail, Tx.Ready, Tx.Script, Tx.Body, Tx.After, ApplyAll;
    StepKeepsSystem(keys, s, s');
    LandedTail(keys, s);
    if Begins(keys, s, s') {
      BodyEndsSynced(s'.tx.value);
      SameBytesKeep(s, s');
    } else if Ends(keys, s, s') {
      ScriptLength(s.tx.value);
      SameBytesKeep(s, s');
    } else {
      SameTransactionKeeps(keys, s, s');
    }
  }

  lemma KeptTransitive(a: System, b: System, c: System)
    requires ChunksKept(a, b) && ChunksKept(b, c)
    ensures ChunksKept(a, c)
  {
    var x, y, z := Landed(a), Landed(b), Landed(c);
    assert x.records <= z.records && x.commits <= z.commits;
    TailGrows(x, y);
    forall p: nat | FRONT_MATTER_LEN <= p < Tail(x.records) ensures SameByte(a.d.bytes, c.d.bytes, p) {
      assert SameByte(a.d.bytes, b.d.bytes, p) && SameByte(b.d.bytes, c.d.bytes, p);
    }
  }

  lemma {:induction false} RunOk(keys: Keys, run: seq<System>, i: nat)
    requires Run(keys, run) && i < |run|
    ensures SystemOk(keys, run[i])
  {
    hide SystemOk, Step;
    if i == 0 {
    } else {
      RunOk(keys, run, i - 1);
      assert Step(keys, run[i - 1], run[i - 1 + 1]);
      StepKeepsSystem(keys, run[i - 1], run[i]);
    }
  }

  /** Landed commits accumulate along a run, and the bytes of landed chunks never change. */
  lemma {:induction false} RunKeepsChunks(keys: Keys, run: seq<System>, i: nat, j: nat)
    requires Run(keys, run) && i <= j < |run|
    ensures SystemOk(keys, run[i]) && SystemOk(keys, run[j])
    ensures ChunksKept(run[i], run[j])
    decreases j - i
  {
    hide SystemOk, Step, ChunksKept;
    RunOk(keys, run, i);
    if i == j {
      LandedTail(keys, run[i]);
      KeptItself(run[i]);
    } else {
      assert Step(keys, run[i], run[i + 1]);
      StepKeepsChunks(keys, run[i], run[i + 1]);
      RunKeepsChunks(keys, run, i + 1, j);
      KeptTransitive(run[i], run[i + 1], run[j]);
    }
  }

  lemma KeptItself(s: System)
    requires Tail(Landed(s).records) <= |s.d.bytes|
    ensures ChunksKept(s, s)
  {
  }

  lemma TailGrows(a: History, b: History)
    requires Continues(a, b)
    ensures Tail(a.records) <= Tail(b.records)
  {
    TailAppend(a.records, b.records[|a.records|..]);
    assert b.records == a.records + b.records[|a.records|..];
  }

  lemma LandedTail(keys: Keys, s: System)
    requires SystemOk(keys, s)
    ensures Tail(Landed(s).records) <= |s.d.bytes|
  {
    if s.tx.Some? {
      var t := s.tx.value;
      ScriptLength(t);
      WriterBytes(keys, s);
      RecordsPlaced(t);
      BodyStages(t);
    }
  }

  // Runs with crashes

  /** A run in which power may be lost, each time in a crash-atomic transaction, and the blob reopened. */
  ghost predicate CrashRun(keys: Keys, run: seq<System>) {
    && run != [] && SystemOk(keys, run[0])
    && forall i {:trigger run[i]} :: 0 <= i < |run| - 1 ==>
         Step(keys, run[i], run[i + 1]) || Crashes(keys, run[i], run[i + 1])
  }

  /** No step and no crash retracts a commit. */
  lemma StepExtends(keys: Keys, s: System, s': System)
    requires SystemOk(keys, s) && (Step(keys, s, s') || Crashes(keys, s, s'))
    ensures SystemOk(keys, s') && Continues(s.h, s'.h)
  {
    StepKeepsSystem(keys, s, s');
    if s.tx.Some? {
      AfterExtends(s.tx.value);
    }
    hide Inv, Tx.Script, Tx.After, Image, Continues;
    SelfExtends(s.h);
  }

  lemma ExtendsOn(a: History, b: History, c: History)
    requires Continues(a, b) && Continues(b, c)
    ensures Continues(a, c)
  {
  }

  lemma {:induction false} CrashRunExtends(keys: Keys, run: seq<System>, i: nat, j: nat)
    requires CrashRun(keys, run) && i <= j < |run|
    ensures SystemOk(keys, run[j]) && Continues(run[i].h, run[j].h)
  {
    hide SystemOk, Step, Crashes, Continues;
    if j == 0 {
      SelfExtends(run[0].h);
    } else {
      CrashRunExtends(keys, run, if i == j then j - 1 else i, j - 1);
      assert Step(keys, run[j - 1], run[j - 1 + 1]) || Crashes(keys, run[j - 1], run[j - 1 + 1]);
      StepExtends(keys, run[j - 1], run[j]);
      if i == j {
        SelfExtends(run[j].h);
      } else {
        ExtendsOn(run[i].h, run[j - 1].h, run[j].h);
      }
    }
  }

  lemma FramesOfPrefix(keys: Keys, bytes: seq<byte>, all: seq<Record>, rs: seq<Record>)
    requires FramesOn(keys, bytes, all) && rs <= all
    ensures FramesOn(keys, bytes, rs)
  {
    forall i | 0 <= i < |rs| ensures FrameOn(keys, bytes, rs[i]) {
      assert FrameOn(keys, bytes, all[i]);
    }
  }

  /** Over any run of transactions and atomic crashes, no commit is lost: whenever the writer is idle the
      blob reads as exactly the commits so far, and every chunk they list decrypts, at every later time. */
  lemma CrashRunKeeps(keys: Keys, run: seq<System>, i: nat, j: nat)
    requires CrashRun(keys, run) && i <= j < |run|
    ensures Continues(run[i].h, run[j].h) && FramesOn(keys, run[j].d.bytes, run[i].h.records)
    ensures run[j].tx.None? ==> ReadActive(keys, run[j].d) == Ok(LoadedOf(run[j].h.records))
  {
    CrashRunExtends(keys, run, i, j);
    AlwaysReadable(keys, run[j]);
    LandedExtends(keys, run[j]);
    hide FramesOn, RegionsIn, HistoryOk, SlotOk, ReadActive, Landed, Tx.Script, Image;
    FramesOfPrefix(keys, run[j].d.bytes, Landed(run[j]).records, run[i].h.records);
    if run[j].tx.None? {
      ReadActiveCommitted(keys, run[j].d, run[j].h);
    }
  }

  lemma LandedExtends(keys: Keys, s: System)
    requires SystemOk(keys, s)
    ensures Continues(s.h, Landed(s))
  {
    if s.tx.Some? {
      AfterExtends(s.tx.value);
    }
    SelfExtends(s.h);
  }

  // What a reader gets

  /** The bytes of `[offset, offset + |times|)`, each read at its own time. */
  ghost function ReadOver(run: seq<System>, offset: nat, times: seq<nat>): seq<byte>
    requires forall i :: 0 <= i < |times| ==> times[i] < |run| && offset + i < |run[times[i]].d.bytes|
  {
    seq(|times|, i requires 0 <= i < |times| => run[times[i]].d.bytes[offset + i])
  }

  lemma SlotIsCommit(keys: Keys, run: seq<System>, i: nat, s: SlotIndex) returns (g: nat)
    requires Run(keys, run) && i < |run| && SlotLocator(run[i].d, s).Some?
    ensures SystemOk(keys, run[|run| - 1])
    ensures g < |Landed(run[|run| - 1]).commits|
    ensures SlotLocator(run[i].d, s).value == Landed(run[|run| - 1]).commits[g].locator
  {
    hide SystemOk, Step, Landed, FramesOn, RegionsIn, HistoryOk;
    RunKeepsChunks(keys, run, i, |run| - 1);
    AlwaysReadable(keys, run[i]);
    var h := Landed(run[i]);
    assert SlotOk(h, run[i].d, s);
    g :| 0 <= g < |h.commits| && g % 2 == s && run[i].d.slots[s] == Sealed(h.commits[g].locator);
    assert Landed(run[|run| - 1]).commits[g] == h.commits[g];
  }

  /** A lock-free index read.  Whenever each slot and each byte is read, an attempt either fails its
      MAC or returns exactly the index of a committed generation, a prefix of the newest index. */
  lemma LockFreeIndex(keys: Keys, run: seq<System>, timeA: nat, timeB: nat, times: seq<nat>)
    requires Run(keys, run) && timeA < |run| && timeB < |run|
    requires SortLocators(SlotLocator(run[timeA].d, 0), SlotLocator(run[timeB].d, 1)).Ok?
    requires var l := SortLocators(SlotLocator(run[timeA].d, 0), SlotLocator(run[timeB].d, 1)).value[0];
      |times| == l.length
      && forall i :: 0 <= i < |times| ==> times[i] < |run| && l.offset + i < |run[times[i]].d.bytes|
    ensures SystemOk(keys, run[|run| - 1])
    ensures var l := SortLocators(SlotLocator(run[timeA].d, 0), SlotLocator(run[timeB].d, 1)).value[0];
      var r := OpenIndex(keys, l, ReadOver(run, l.offset, times));
      var h := Landed(run[|run| - 1]);
      exists g :: 0 <= g < |h.commits| && l == h.commits[g].locator
        && h.commits[g].count <= |h.records|
        && r in {Err(IndexMacMismatch), Ok(LoadedOf(h.records[..h.commits[g].count]))}
  {
    hide SystemOk, Step, Landed, FramesOn, RegionsIn, SlotOk, OpenIndex, ReadOver, Placed;
    var a, b := SlotLocator(run[timeA].d, 0), SlotLocator(run[timeB].d, 1);
    var l := SortLocators(a, b).value[0];
    var h := Landed(run[|run| - 1]);
    RunOk(keys, run, |run| - 1);
    AlwaysReadable(keys, run[|run| - 1]);
    var g: nat;
    if a.Some? && a.value == l {
      g := SlotIsCommit(keys, run, timeA, 0);
    } else {
      g := SlotIsCommit(keys, run, timeB, 1);
    }
    OpenCommitted(keys, h, g, ReadOver(run, l.offset, times));
    assert CommitOk(keys, h, g);
  }

  /** When an attempt to read the index reads each slot and each byte of the index region. */
  datatype Attempt = Attempt(slotA: nat, slotB: nat, bytes: nat -> nat)

  ghost predicate Within(run: seq<System>, a: Attempt) {
    a.slotA < |run| && a.slotB < |run| && forall i :: a.bytes(i) < |run|
  }

  /** The index is read after the slots that say where it is. */
  ghost predicate Causal(a: Attempt) {
    forall i :: a.slotA <= a.bytes(i) && a.slotB <= a.bytes(i)
  }

  function FirstTimes(bytes: nat -> nat, n: nat): (times: seq<nat>)
    ensures |times| == n && forall i :: 0 <= i < n ==> times[i] == bytes(i)
  {
    seq(n, i requires 0 <= i < n => bytes(i))
  }

  /** The bytes an attempt reads, unless the file is too short when one of them is read. */
  ghost function ReadBytes(run: seq<System>, offset: nat, length: nat, bytes: nat -> nat): Result<seq<byte>>
    requires forall i :: bytes(i) < |run|
  {
    if forall i :: 0 <= i < length ==> offset + i < |run[bytes(i)].d.bytes| then
      Ok(ReadOver(run, offset, FirstTimes(bytes, length)))
    else Err(Io)
  }

  ghost function TryRead(keys: Keys, run: seq<System>, a: Attempt): Result<Loaded>
    requires Within(run, a)
  {
    var locators :- SortLocators(SlotLocator(run[a.slotA].d, 0), SlotLocator(run[a.slotB].d, 1));
    var ciphertext :- ReadBytes(run, locators[0].offset, locators[0].length, a.bytes);
    OpenIndex(keys, locators[0], ciphertext)
  }

  /** Reads the index while a writer is at work, trying again whenever the MAC does not match. */
  ghost function RetryRead(keys: Keys, run: seq<System>, attempts: seq<Attempt>): Result<BlobIndex>
    requires forall i :: 0 <= i < |attempts| ==> Within(run, attempts[i])
  {
    if attempts == [] then Err(RetryBudgetExceeded)
    else
      match TryRead(keys, run, attempts[0])
      case Ok(loaded) => Ok(loaded.index)
      case Err(e) => if e == IndexMacMismatch then RetryRead(keys, run, attempts[1..]) else Err(e)
  }

  /** The loop answers with the first attempt that is not a MAC mismatch, and gives up only when all are. */
  lemma {:induction false} FirstAnswer(keys: Keys, run: seq<System>, attempts: seq<Attempt>) returns (j: nat)
    requires forall i :: 0 <= i < |attempts| ==> Within(run, attempts[i])
    ensures j <= |attempts|
    ensures forall i :: 0 <= i < j ==> TryRead(keys, run, attempts[i]) == Err(IndexMacMismatch)
    ensures j == |attempts| ==> RetryRead(keys, run, attempts) == Err(RetryBudgetExceeded)
    ensures j < |attempts| ==>
      match TryRead(keys, run, attempts[j])
      case Ok(loaded) => RetryRead(keys, run, attempts) == Ok(loaded.index)
      case Err(e) => e != IndexMacMismatch && RetryRead(keys, run, attempts) == Err(e)
  {
    hide TryRead, Within;
    if attempts == [] || TryRead(keys, run, attempts[0]) != Err(IndexMacMismatch) {
      j := 0;
    } else {
      j := FirstAnswer(keys, run, attempts[1..]);
      j := j + 1;
      forall i | 0 <= i < j ensures TryRead(keys, run, attempts[i]) == Err(IndexMacMismatch) {
        assert i > 0 ==> attempts[1..][i - 1] == attempts[i];
      }
    }
  }

  /** An attempt during which no writer is at work finds the last commit. */
  lemma QuietAttempt(keys: Keys, run: seq<System>, a: Attempt, i: nat)
    requires Run(keys, run) && Within(run, a) && i < |run| && run[i].tx.None?
    requires run[a.slotA] == run[a.slotB] == run[i] && forall p :: run[a.bytes(p)] == run[i]
    ensures TryRead(keys, run, a) == Ok(LoadedOf(run[i].h.records))
  {
    hide Step, OpenIndex, SlotOk, FramesOn, RegionsIn, HistoryOk, Cipher, IndexOf, Plain;
    RunOk(keys, run, i);
    var d, h := run[i].d, run[i].h;
    ActiveIsLast(keys, d, h);
    ReadActiveCommitted(keys, d, h);
    var l := Last(h);
    assert ReadOver(run, l.offset, FirstTimes(a.bytes, l.length)) == d.bytes[l.offset..l.offset + l.length];
    assert l.length == 0 ==> d.bytes[l.offset..l.offset + l.length] == [];
  }

  /** The index some landed commit of the run lists. */
  ghost predicate IndexLanded(run: seq<System>, index: BlobIndex)
    requires run != []
  {
    var h := Landed(run[|run| - 1]);
    exists g :: 0 <= g < |h.commits| && h.commits[g].count <= |h.records|
                && index == IndexOf(h.records[..h.commits[g].count])
  }

  /** Once a commit has landed its index region lies within the file, at every later time. */
  lemma RegionStays(keys: Keys, run: seq<System>, i: nat, s: SlotIndex, j: nat)
    requires Run(keys, run) && i <= j < |run| && SlotLocator(run[i].d, s).Some?
    ensures var l := SlotLocator(run[i].d, s).value;
      l.offset + l.length <= |run[j].d.bytes|
  {
    hide SystemOk, Step, Landed, FramesOn, HistoryOk;
    RunKeepsChunks(keys, run, i, j);
    AlwaysReadable(keys, run[i]);
    AlwaysReadable(keys, run[j]);
    var h := Landed(run[i]);
    assert SlotOk(h, run[i].d, s);
    var g :| 0 <= g < |h.commits| && g % 2 == s && run[i].d.slots[s] == Sealed(h.commits[g].locator);
    assert Landed(run[j]).commits[g] == h.commits[g];
  }

  /** An attempt that reads the index after the slots never finds the file too short. */
  lemma CausalReads(keys: Keys, run: seq<System>, a: Attempt)
    requires Run(keys, run) && Within(run, a) && Causal(a)
    requires SortLocators(SlotLocator(run[a.slotA].d, 0), SlotLocator(run[a.slotB].d, 1)).Ok?
    ensures var l := SortLocators(SlotLocator(run[a.slotA].d, 0), SlotLocator(run[a.slotB].d, 1)).value[0];
      ReadBytes(run, l.offset, l.length, a.bytes).Ok?
  {
    hide Run, ReadOver, SlotLocator;
    var x, y := SlotLocator(run[a.slotA].d, 0), SlotLocator(run[a.slotB].d, 1);
    var l := SortLocators(x, y).value[0];
    forall i | 0 <= i < l.length ensures l.offset + i < |run[a.bytes(i)].d.bytes| {
      if x.Some? { RegionStays(keys, run, a.slotA, 0, a.bytes(i)); }
      if y.Some? { RegionStays(keys, run, a.slotB, 1, a.bytes(i)); }
    }
  }

  lemma TryReadCommitted(keys: Keys, run: seq<System>, a: Attempt)
    requires Run(keys, run) && Within(run, a)
    ensures match TryRead(keys, run, a)
            case Ok(loaded) => IndexLanded(run, loaded.index)
            case Err(e) => e == IndexMacMismatch || e == NoValidLocator || (e == Io && !Causal(a))
  {
    hide SystemOk, Step, Landed, OpenIndex, ReadOver, IndexOf, Plain, SlotLocator;
    var locators := SortLocators(SlotLocator(run[a.slotA].d, 0), SlotLocator(run[a.slotB].d, 1));
    if locators.Ok? && Causal(a) {
      CausalReads(keys, run, a);
    }
    if locators.Ok? && ReadBytes(run, locators.value[0].offset, locators.value[0].length, a.bytes).Ok? {
      var l := locators.value[0];
      LockFreeIndex(keys, run, a.slotA, a.slotB, FirstTimes(a.bytes, l.length));
    }
  }

  /** Lock-free reading with retries.  However slots and bytes are read while writers work, the loop never
      fails to parse: it gives the index of some landed commit, or runs out of attempts, or finds both
      slots torn; and if each attempt reads the index after the slots, it never finds the file too short. */
  lemma {:induction false} LockFreeRetry(keys: Keys, run: seq<System>, attempts: seq<Attempt>)
    requires Run(keys, run) && forall i :: 0 <= i < |attempts| ==> Within(run, attempts[i])
    ensures match RetryRead(keys, run, attempts)
            case Ok(index) => IndexLanded(run, index)
            case Err(e) =>
              || e == RetryBudgetExceeded || e == NoValidLocator
              || (e == Io && exists i :: 0 <= i < |attempts| && !Causal(attempts[i]))
  {
    hide Run, TryRead, IndexLanded, Within, Causal;
    if attempts != [] {
      TryReadCommitted(keys, run, attempts[0]);
      LockFreeRetry(keys, run, attempts[1..]);
    }
  }

  lemma ReadableParts(keys: Keys, d: DiskState, h: History, i: nat)
    requires Readable(keys, d, h) && i < |h.records| && h.records[i].ChunkRecord?
    ensures FrameOn(keys, d.bytes, h.records[i])
    ensures FRONT_MATTER_LEN <= h.records[i].chunk.offset
    ensures h.records[i].chunk.offset + FrameLen(h.records[i]) <= Tail(h.records)
  {
    FrameBounds(keys, h.records, i);
  }

  /** A lock-free chunk read.  Once a commit has landed, each chunk it lists decrypts to its plaintext
      whenever each byte of its frame is read. */
  lemma LockFreeChunk(keys: Keys, run: seq<System>, since: nat, i: nat, times: seq<nat>)
    requires Run(keys, run) && since < |run| && SystemOk(keys, run[since])
    requires i < |Landed(run[since]).records| && Landed(run[since]).records[i].ChunkRecord?
    requires |times| == FrameLen(Landed(run[since]).records[i])
    requires forall k :: 0 <= k < |times| ==> since <= times[k] < |run|
    ensures var r := Landed(run[since]).records[i];
      && (forall k :: 0 <= k < |times| ==> r.chunk.offset + k < |run[times[k]].d.bytes|)
      && DecryptChunk(keys, r.chunk, ReadOver(run, r.chunk.offset, times)) == Ok(r.plaintext)
  {
    hide SystemOk, Step, Landed, SlotOk, CommitOk, DecryptChunk, Placed, Tail, Readable;
    AlwaysReadable(keys, run[since]);
    ReadableParts(keys, run[since].d, Landed(run[since]), i);
    var h := Landed(run[since]);
    var r := h.records[i];
    forall k | 0 <= k < |times|
      ensures SameByte(run[since].d.bytes, run[times[k]].d.bytes, r.chunk.offset + k)
    {
      RunKeepsChunks(keys, run, since, times[k]);
    }
    assert ReadOver(run, r.chunk.offset, times)
        == run[since].d.bytes[r.chunk.offset..r.chunk.offset + FrameLen(r)];
  }
}
