/** What a blob has committed, and what it means for a file to hold it. */
module Ledger {
  import opened Basics
  import opened IndexCodec
  import opened Crypto
  import opened Disk

  /** A committed entry.  A chunk comes with the plaintext its frame was made from. */
  datatype Record = ChunkRecord(chunk: ChunkEntry, plaintext: seq<byte>) | CompleteRecord(complete: CompleteEntry)

  /** The commit of one generation: its locator, and how many records its index lists. */
  datatype Commit = Commit(locator: Locator, count: nat)

  /** Every record ever committed, in index order, and the commit of every generation. */
  datatype History = History(records: seq<Record>, commits: seq<Commit>)

  /** What was committed stays so. */
  ghost predicate Continues(was: History, h: History) {
    was.records <= h.records && was.commits <= h.commits
  }

  function EntryOf(r: Record): Entry {
    match r
    case ChunkRecord(c, _) => Chunk(c)
    case CompleteRecord(c) => Complete(c)
  }

  function Entries(rs: seq<Record>): (es: seq<Entry>) {
    seq(|rs|, i requires 0 <= i < |rs| => EntryOf(rs[i]))
  }

  /** The index plaintext that lists `rs`. */
  function Plain(rs: seq<Record>): seq<byte> {
    Encode(Entries(rs))
  }

  function IndexOf(rs: seq<Record>): BlobIndex {
    Collect(Entries(rs))
  }

  /** The index ciphertext that lists `rs`, encrypted in one pass from stream position 0. */
  function Cipher(keys: Keys, rs: seq<Record>): seq<byte> {
    StreamXor(keys.indexStream, 0, Plain(rs))
  }

  function FrameLen(r: Record): nat {
    if r.ChunkRecord? then |r.plaintext| + FRAME_OVERHEAD else 0
  }

  /** The end of the chunk region when frames are packed from the end of the front matter. */
  function Tail(rs: seq<Record>): (tail: nat) {
    if rs == [] then FRONT_MATTER_LEN else Tail(rs[..|rs| - 1]) + FrameLen(rs[|rs| - 1])
  }

  /** Frames are packed in order from the end of the front matter, and entries describe them truly. */
  ghost predicate Placed(keys: Keys, rs: seq<Record>) {
    rs == [] ||
    (var r := rs[|rs| - 1];
     && Placed(keys, rs[..|rs| - 1])
     && (r.ChunkRecord? ==>
           && r.chunk.offset == Tail(rs[..|rs| - 1])
           && r.chunk.plaintextLength == |r.plaintext|
           && r.chunk.contentHash == keys.hash(r.plaintext)))
  }

  /** The record's frame is in the file and decrypts to the record's plaintext. */
  ghost predicate FrameOn(keys: Keys, bytes: seq<byte>, r: Record) {
    r.ChunkRecord? ==>
      && r.chunk.offset + FrameLen(r) <= |bytes|
      && DecryptChunk(keys, r.chunk, bytes[r.chunk.offset..r.chunk.offset + FrameLen(r)]) == Ok(r.plaintext)
  }

  ghost predicate FramesOn(keys: Keys, bytes: seq<byte>, rs: seq<Record>) {
    forall i :: 0 <= i < |rs| ==> FrameOn(keys, bytes, rs[i])
  }

  function Last(h: History): Locator
    requires h.commits != []
  {
    h.commits[|h.commits| - 1].locator
  }

  /** The locator a commit of `rs` as generation `generation` writes. */
  function LocatorFor(keys: Keys, generation: nat, offset: u64, rs: seq<Record>): Locator
    requires |Plain(rs)| < U64_LIMIT
  {
    Locator(generation, offset, |Plain(rs)|, Mac(generation, |Plain(rs)|, Cipher(keys, rs)), generation % 2)
  }

  ghost predicate CommitOk(keys: Keys, h: History, g: nat)
    requires g < |h.commits|
  {
    var c := h.commits[g];
    && c.count <= |h.records|
    && |Plain(h.records[..c.count])| < U64_LIMIT
    && c.locator == LocatorFor(keys, g, c.locator.offset, h.records[..c.count])
  }

  ghost predicate HistoryOk(keys: Keys, h: History) {
    && h.commits != []
    && h.commits[|h.commits| - 1].count == |h.records|
    && (forall g :: 0 <= g < |h.commits| ==> CommitOk(keys, h, g))
    && (forall f, g :: 0 <= f <= g < |h.commits| ==> h.commits[f].count <= h.commits[g].count)
    && Placed(keys, h.records)
  }

  /** A slot is torn or holds the locator of a commit whose generation belongs in it. */
  ghost predicate SlotOk(h: History, d: DiskState, s: SlotIndex) {
    || d.slots[s] == Torn
    || exists g :: 0 <= g < |h.commits| && g % 2 == s && d.slots[s] == Sealed(h.commits[g].locator)
  }

  /** Every index region ever committed lies within the file. */
  ghost predicate RegionsIn(h: History, d: DiskState) {
    forall g :: 0 <= g < |h.commits| ==> h.commits[g].locator.offset + h.commits[g].locator.length <= |d.bytes|
  }

  /** What lock-free readers rely on at every instant. */
  ghost predicate Readable(keys: Keys, d: DiskState, h: History) {
    && h.commits != [] && HistoryOk(keys, h)
    && SlotOk(h, d, 0) && SlotOk(h, d, 1)
    && FramesOn(keys, d.bytes, h.records) && RegionsIn(h, d)
  }

  /** Moreover the last commit is the active one and its index region lies past the chunks. */
  ghost predicate Safe(keys: Keys, d: DiskState, h: History) {
    && Readable(keys, d, h)
    && d.slots[Last(h).slot] == Sealed(Last(h))
    && Tail(h.records) <= Last(h).offset
    && Last(h).offset + Last(h).length <= |d.bytes| < U64_LIMIT
  }

  /** The state between transactions: the index region holds the last committed index. */
  ghost predicate Inv(keys: Keys, d: DiskState, h: History) {
    && Safe(keys, d, h)
    && d.bytes[Last(h).offset..Last(h).offset + Last(h).length] == Cipher(keys, h.records)
  }

  // Reading

  function SlotLocator(d: DiskState, s: SlotIndex): Option<Locator> {
    // The slot's number is part of its associated data, so a slot opens only in its own place.
    if d.slots[s].Sealed? && d.slots[s].locator.slot == s then Some(d.slots[s].locator) else None
  }

  /** The locators of the slots that open, highest generation first. */
  function SortLocators(a: Option<Locator>, b: Option<Locator>): Result<seq<Locator>> {
    match (a, b)
    case (Some(x), Some(y)) => if x.generation >= y.generation then Ok([x, y]) else Ok([y, x])
    case (Some(x), None) => Ok([x])
    case (None, Some(y)) => Ok([y])
    case (None, None) => Err(NoValidLocator)
  }

  function SortedLocators(d: DiskState): (r: Result<seq<Locator>>)
    ensures r.Ok? ==> r.value != []
  {
    SortLocators(SlotLocator(d, 0), SlotLocator(d, 1))
  }

  datatype Loaded = Loaded(index: BlobIndex, plaintext: seq<byte>)

  /** Authenticates, decrypts and parses index bytes against the locator that describes them. */
  ghost function OpenIndex(keys: Keys, l: Locator, ciphertext: seq<byte>): Result<Loaded> {
    if Mac(l.generation, l.length, ciphertext) != l.mac then Err(IndexMacMismatch)
    else
      var plaintext := StreamXor(keys.indexStream, 0, ciphertext);
      var index :- Parse(plaintext);
      Ok(Loaded(index, plaintext))
  }

  ghost function LoadIndex(keys: Keys, d: DiskState, l: Locator): Result<Loaded> {
    var ciphertext :- if l.length == 0 then Ok([]) else ReadRange(d, l.offset, l.length);
    OpenIndex(keys, l, ciphertext)
  }

  /** What reopening the blob reads. */
  ghost function ReadActive(keys: Keys, d: DiskState): Result<Loaded> {
    var locators :- SortedLocators(d);
    LoadIndex(keys, d, locators[0])
  }

  function LoadedOf(rs: seq<Record>): Loaded {
    Loaded(IndexOf(rs), Plain(rs))
  }

  // Facts about records

  lemma EntriesAppend(a: seq<Record>, b: seq<Record>)
    ensures Plain(a + b) == Plain(a) + Plain(b)
    ensures IndexOf(a + b).chunks == IndexOf(a).chunks + IndexOf(b).chunks
    ensures IndexOf(a + b).completed == IndexOf(a).completed + IndexOf(b).completed
  {
    assert Entries(a + b) == Entries(a) + Entries(b);
    EncodeAppend(Entries(a), Entries(b));
    CollectAppend(Entries(a), Entries(b));
  }

  lemma {:induction false} TailAppend(a: seq<Record>, b: seq<Record>)
    ensures Tail(a + b) == Tail(a) + Tail(b) - FRONT_MATTER_LEN
    ensures Tail(b) >= FRONT_MATTER_LEN
  {
    if b == [] {
      assert a + b == a;
    } else {
      var n := |b| - 1;
      TailAppend(a, b[..n]);
      assert (a + b)[..|a| + n] == a + b[..n];
    }
  }

  lemma {:induction false} PlacedPrefix(keys: Keys, rs: seq<Record>, n: nat)
    requires Placed(keys, rs) && n <= |rs|
    ensures Placed(keys, rs[..n]) && FRONT_MATTER_LEN <= Tail(rs[..n]) <= Tail(rs)
  {
    if n == |rs| {
      assert rs[..n] == rs;
      TailAppend([], rs);
    } else {
      PlacedPrefix(keys, rs[..|rs| - 1], n);
      assert rs[..|rs| - 1][..n] == rs[..n];
    }
  }

  /** Chunk frames lie between the front matter and the tail, one after the other. */
  lemma FrameBounds(keys: Keys, rs: seq<Record>, i: nat)
    requires Placed(keys, rs) && i < |rs| && rs[i].ChunkRecord?
    ensures rs[i].chunk.plaintextLength == |rs[i].plaintext|
    ensures FRONT_MATTER_LEN <= rs[i].chunk.offset == Tail(rs[..i])
    ensures rs[i].chunk.offset + FrameLen(rs[i]) == Tail(rs[..i + 1]) <= Tail(rs)
  {
    PlacedPrefix(keys, rs, i + 1);
    assert rs[..i + 1][..i] == rs[..i];
    PlacedPrefix(keys, rs, i);
  }

  lemma FramesDisjoint(keys: Keys, rs: seq<Record>, i: nat, j: nat)
    requires Placed(keys, rs) && i < j < |rs| && rs[i].ChunkRecord? && rs[j].ChunkRecord?
    ensures rs[i].chunk.offset + FrameLen(rs[i]) <= rs[j].chunk.offset
  {
    FrameBounds(keys, rs, i);
    FrameBounds(keys, rs, j);
    PlacedPrefix(keys, rs, j);
    PlacedPrefix(keys, rs[..j], i + 1);
    assert rs[..j][..i + 1] == rs[..i + 1];
  }

  /** Frames survive whenever the bytes of the chunk region do. */
  lemma FramesKept(keys: Keys, rs: seq<Record>, bytes: seq<byte>, after: seq<byte>)
    requires Placed(keys, rs) && FramesOn(keys, bytes, rs)
    requires |bytes| <= |after|
    requires forall p :: FRONT_MATTER_LEN <= p < Tail(rs) && p < |bytes| ==> after[p] == bytes[p]
    ensures FramesOn(keys, after, rs)
  {
    forall i | 0 <= i < |rs| && rs[i].ChunkRecord?
      ensures FrameOn(keys, after, rs[i])
    {
      FrameBounds(keys, rs, i);
      var lo, hi := rs[i].chunk.offset, rs[i].chunk.offset + FrameLen(rs[i]);
      assert FrameOn(keys, bytes, rs[i]);
      assert after[lo..hi] == bytes[lo..hi];
    }
  }

  /** The record an index chunk comes from. */
  lemma {:induction false} RecordOfChunk(rs: seq<Record>, k: nat) returns (i: nat)
    requires k < |IndexOf(rs).chunks|
    ensures i < |rs| && rs[i].ChunkRecord? && rs[i].chunk == IndexOf(rs).chunks[k]
    ensures |IndexOf(rs[..i]).chunks| == k
  {
    var n := |rs| - 1;
    assert rs == rs[..n] + [rs[n]];
    IndexSnoc(rs[..n], rs[n]);
    if k < |IndexOf(rs[..n]).chunks| {
      i := RecordOfChunk(rs[..n], k);
      assert rs[..n][..i] == rs[..i];
    } else {
      i := n;
    }
  }

  /** The record an index completion comes from. */
  lemma {:induction false} RecordOfComplete(rs: seq<Record>, k: nat) returns (i: nat)
    requires k < |IndexOf(rs).completed|
    ensures i < |rs| && rs[i].CompleteRecord? && rs[i].complete == IndexOf(rs).completed[k]
  {
    var n := |rs| - 1;
    assert rs == rs[..n] + [rs[n]];
    IndexSnoc(rs[..n], rs[n]);
    if k < |IndexOf(rs[..n]).completed| {
      i := RecordOfComplete(rs[..n], k);
    } else {
      i := n;
    }
  }

  /** The place of a chunk record in the index. */
  lemma {:induction false} ChunkOfRecord(rs: seq<Record>, i: nat) returns (k: nat)
    requires i < |rs| && rs[i].ChunkRecord?
    ensures k < |IndexOf(rs).chunks| && rs[i].chunk == IndexOf(rs).chunks[k]
    ensures k == |IndexOf(rs[..i]).chunks|
  {
    var n := |rs| - 1;
    assert rs == rs[..n] + [rs[n]];
    IndexSnoc(rs[..n], rs[n]);
    if i < n {
      k := ChunkOfRecord(rs[..n], i);
      assert rs[..n][..i] == rs[..i];
    } else {
      k := |IndexOf(rs).chunks| - 1;
    }
  }

  /** The index lists chunks in the order of their records. */
  lemma ChunkOrder(rs: seq<Record>, i: nat, j: nat)
    requires i < j <= |rs| && rs[i].ChunkRecord?
    ensures |IndexOf(rs[..i]).chunks| < |IndexOf(rs[..j]).chunks|
  {
    IndexSnoc(rs[..i], rs[i]);
    assert rs[..i + 1] == rs[..i] + [rs[i]];
    EntriesAppend(rs[..i + 1], rs[i + 1..j]);
    assert rs[..j] == rs[..i + 1] + rs[i + 1..j];
  }

  // Facts about committed locators

  /** An authenticated read under a committed locator yields exactly that commit's index, whatever
      bytes the file holds, and never fails to parse. */
  lemma OpenCommitted(keys: Keys, h: History, g: nat, ciphertext: seq<byte>)
    requires HistoryOk(keys, h) && g < |h.commits|
    ensures var l, rs := h.commits[g].locator, h.records[..h.commits[g].count];
      OpenIndex(keys, l, ciphertext)
        == if ciphertext == Cipher(keys, rs) then Ok(LoadedOf(rs)) else Err(IndexMacMismatch)
  {
    var rs := h.records[..h.commits[g].count];
    assert CommitOk(keys, h, g);
    StreamXorInvolutive(keys.indexStream, 0, Plain(rs));
    ParseEncoded(Entries(rs));
  }

  /** A MAC is that of one generation, one length and one ciphertext: under the same MAC nothing else opens,
      and a locator opens in no slot but its own. */
  lemma OpensOnlyAuthentic(keys: Keys, l: Locator, ciphertext: seq<byte>, other: Locator, changed: seq<byte>,
                           d: DiskState, s: SlotIndex)
    ensures OpenIndex(keys, l, ciphertext) == Err(IndexMacMismatch) <==> l.mac != Mac(l.generation, l.length, ciphertext)
    ensures
      && OpenIndex(keys, l, ciphertext) != Err(IndexMacMismatch) && other.mac == l.mac
      && (other.generation != l.generation || other.length != l.length || changed != ciphertext)
      ==>
        OpenIndex(keys, other, changed) == Err(IndexMacMismatch)
    ensures d.slots[s] == Sealed(l) && l.slot != s ==> SlotLocator(d, s) == None
  {
    hide Parse, StreamXor;
    ParseFails(StreamXor(keys.indexStream, 0, ciphertext));
  }

  lemma ParseFails(bytes: seq<byte>)
    ensures Parse(bytes) != Err(IndexMacMismatch)
  {
  }

  /** Two valid slots never hold the same generation, and the last commit is the active one. */
  lemma ActiveIsLast(keys: Keys, d: DiskState, h: History)
    requires Safe(keys, d, h)
    ensures SortedLocators(d).Ok? && SortedLocators(d).value[0] == Last(h)
    ensures SlotLocator(d, 0).Some? && SlotLocator(d, 1).Some? ==>
              SlotLocator(d, 0).value.generation != SlotLocator(d, 1).value.generation
  {
    var top := |h.commits| - 1;
    assert CommitOk(keys, h, top);
    var s := Last(h).slot;
    assert s == top % 2;
    var t: SlotIndex := 1 - s;
    assert SlotOk(h, d, t);
    if d.slots[t].Sealed? {
      var g :| 0 <= g < |h.commits| && g % 2 == t && d.slots[t] == Sealed(h.commits[g].locator);
      assert CommitOk(keys, h, g);
      assert g < top;
    }
  }

  /** Reopening a blob between transactions reads the last committed index. */
  lemma ReadActiveCommitted(keys: Keys, d: DiskState, h: History)
    requires Inv(keys, d, h)
    ensures ReadActive(keys, d) == Ok(LoadedOf(h.records))
    ensures LoadIndex(keys, d, Last(h)) == Ok(LoadedOf(h.records))
  {
    hide SlotOk, FramesOn, Placed, OpenIndex, Cipher, Plain, IndexOf;
    ActiveIsLast(keys, d, h);
    var top := |h.commits| - 1;
    assert CommitOk(keys, h, top);
    assert h.records[..h.commits[top].count] == h.records;
    OpenCommitted(keys, h, top, Cipher(keys, h.records));
    if Last(h).length == 0 {
      assert Cipher(keys, h.records) == [];
    }
  }

  /** Once the index region is damaged, the active locator no longer authenticates. */
  lemma ReadActiveDamaged(keys: Keys, d: DiskState, h: History)
    requires Safe(keys, d, h)
    requires d.bytes[Last(h).offset..Last(h).offset + Last(h).length] != Cipher(keys, h.records)
    ensures ReadActive(keys, d) == Err(IndexMacMismatch)
  {
    ActiveIsLast(keys, d, h);
    var top := |h.commits| - 1;
    assert CommitOk(keys, h, top);
    assert h.records[..h.commits[top].count] == h.records;
    OpenCommitted(keys, h, top, d.bytes[Last(h).offset..Last(h).offset + Last(h).length]);
    if Last(h).length == 0 {
      assert false;
    }
  }

  // The data tail, as the code computes it

  /** The largest chunk end in an index, checked against 64-bit overflow. */
  function DataTail(chunks: seq<ChunkEntry>): Result<u64> {
    if chunks == [] then Ok(FRONT_MATTER_LEN)
    else
      var c := chunks[|chunks| - 1];
      var tail :- DataTail(chunks[..|chunks| - 1]);
      var frame :- CheckedAdd(c.plaintextLength, FRAME_OVERHEAD);
      var end :- CheckedAdd(c.offset, frame);
      Ok(Max(tail, end))
  }

  lemma DataTailSnoc(chunks: seq<ChunkEntry>, c: ChunkEntry)
    requires c.offset + c.plaintextLength + FRAME_OVERHEAD < U64_LIMIT
    ensures DataTail(chunks).Ok? ==>
              DataTail(chunks + [c]) == Ok(Max(DataTail(chunks).value, c.offset + c.plaintextLength + FRAME_OVERHEAD))
  {
    assert (chunks + [c])[..|chunks|] == chunks;
  }

  lemma IndexSnoc(rs: seq<Record>, r: Record)
    ensures IndexOf(rs + [r]) == AddEntry(IndexOf(rs), EntryOf(r))
  {
    assert Entries(rs + [r]) == Entries(rs) + [EntryOf(r)];
    assert Entries(rs + [r])[..|rs|] == Entries(rs);
  }

  /** The data tail is the least position past every frame of the index, whatever its order, and there is
      none exactly when some frame would end at 2^64 or later. */
  lemma {:induction false} DataTailIsMax(chunks: seq<ChunkEntry>)
    ensures match DataTail(chunks)
            case Ok(tail) =>
              && FRONT_MATTER_LEN <= tail
              && (forall i :: 0 <= i < |chunks| ==> chunks[i].offset + chunks[i].plaintextLength + FRAME_OVERHEAD <= tail)
              && (tail == FRONT_MATTER_LEN
                  || exists i :: 0 <= i < |chunks| && chunks[i].offset + chunks[i].plaintextLength + FRAME_OVERHEAD == tail)
            case Err(e) =>
              && e == IntegerOverflow
              && exists i :: 0 <= i < |chunks| && chunks[i].offset + chunks[i].plaintextLength + FRAME_OVERHEAD >= U64_LIMIT
  {
    if chunks == [] {
    } else {
      var n, before := |chunks| - 1, chunks[..|chunks| - 1];
      DataTailIsMax(before);
      if DataTail(before).Err? {
        var i :| 0 <= i < |before| && before[i].offset + before[i].plaintextLength + FRAME_OVERHEAD >= U64_LIMIT;
        assert chunks[i] == before[i];
      } else if DataTail(before).value > FRONT_MATTER_LEN {
        var i :| 0 <= i < |before|
                 && before[i].offset + before[i].plaintextLength + FRAME_OVERHEAD == DataTail(before).value;
        assert chunks[i] == before[i];
      }
    }
  }

  lemma NoTail()
    ensures DataTail(IndexOf([]).chunks) == Ok(Tail([]))
  {
  }

  /** For packed chunks the largest end is the end of the last one. */
  lemma {:induction false} DataTailIsTail(keys: Keys, rs: seq<Record>)
    requires Placed(keys, rs) && Tail(rs) < U64_LIMIT
    ensures DataTail(IndexOf(rs).chunks) == Ok(Tail(rs))
  {
    if rs == [] {
      NoTail();
    } else {
      var n := |rs| - 1;
      var r := rs[n];
      PlacedPrefix(keys, rs, n);
      assert rs == rs[..n] + [r];
      hide IndexOf, DataTail;
      DataTailIsTail(keys, rs[..n]);
      IndexSnoc(rs[..n], r);
      if r.ChunkRecord? {
        DataTailSnoc(IndexOf(rs[..n]).chunks, r.chunk);
      }
    }
  }
}
