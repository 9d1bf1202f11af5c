/** Putting a file back together from the merged index. */
module Assembly {
  import opened Basics
  import opened IndexCodec
  import opened Ledger
  import opened Transaction
  import opened Handles
  import opened Cache
  import opened Sorting

  function OfFile(f: FileId): Located<ChunkEntry> -> bool {
    (x: Located<ChunkEntry>) => x.entry.fileId == f
  }

  function CompletesFile(f: FileId): Located<CompleteEntry> -> bool {
    (x: Located<CompleteEntry>) => x.entry.fileId == f
  }

  function FileChunks(v: VaultIndex, f: FileId): seq<Located<ChunkEntry>> {
    Filter(OfFile(f), v.chunks)
  }

  function FileCompletes(v: VaultIndex, f: FileId): seq<Located<CompleteEntry>> {
    Filter(CompletesFile(f), v.completed)
  }

  function SequenceKey(x: Located<ChunkEntry>): nat {
    x.entry.sequenceNumber
  }

  /** The chunks are numbered 0, 1, 2 and so on. */
  ghost predicate Numbered(xs: seq<Located<ChunkEntry>>) {
    forall i :: 0 <= i < |xs| ==> xs[i].entry.sequenceNumber == i
  }

  /** The file's chunks in order of sequence number, none missing and none twice. */
  ghost function OrderedChunks(v: VaultIndex, f: FileId): Result<seq<Located<ChunkEntry>>> {
    var mine := FileChunks(v, f);
    if mine == [] then Err(FileNotFound)
    else
      var sorted := SortBy(SequenceKey, mine);
      if Numbered(sorted) then Ok(sorted) else Err(IncompleteFile)
  }

  /** The summed plaintext lengths, with every addition checked. */
  function LengthSum(xs: seq<Located<ChunkEntry>>): Result<u64> {
    if xs == [] then Ok(0)
    else
      var before :- LengthSum(xs[..|xs| - 1]);
      CheckedAdd(before, xs[|xs| - 1].entry.plaintextLength)
  }

  /** The completion with the most chunks, the last one among equals. */
  function MostChunks(xs: seq<Located<CompleteEntry>>): Option<Located<CompleteEntry>> {
    if xs == [] then None
    else
      var before, x := MostChunks(xs[..|xs| - 1]), xs[|xs| - 1];
      if before.Some? && before.value.entry.totalChunks > x.entry.totalChunks then before else Some(x)
  }

  function LatestComplete(v: VaultIndex, f: FileId): Result<Located<CompleteEntry>> {
    var latest := MostChunks(FileCompletes(v, f));
    if latest.Some? then Ok(latest.value) else Err(IncompleteFile)
  }

  function EnsureFileComplete(v: VaultIndex, f: FileId): Result<()> {
    var count := |FileChunks(v, f)|;
    if count == 0 then Err(FileNotFound)
    else
      var complete :- LatestComplete(v, f);
      if complete.entry.totalChunks != count then Err(IncompleteFile) else Ok(())
  }

  // What the index says of a file

  /** The chunks and completions looked at are those listed with the file's id, each as often as listed. */
  lemma FileEntries(v: VaultIndex, f: FileId, x: Located<ChunkEntry>, c: Located<CompleteEntry>)
    ensures multiset(FileChunks(v, f))[x] == if x.entry.fileId == f then multiset(v.chunks)[x] else 0
    ensures multiset(FileCompletes(v, f))[c] == if c.entry.fileId == f then multiset(v.completed)[c] else 0
  {
    FilterCounts(OfFile(f), v.chunks, x);
    FilterCounts(CompletesFile(f), v.completed, c);
  }

  /** Some completion of the file is listed, and the greatest count among them is the number of its chunks. */
  ghost predicate CompleteIn(v: VaultIndex, f: FileId) {
    var n := |FileChunks(v, f)|;
    && n > 0
    && (exists i :: 0 <= i < |FileCompletes(v, f)| && FileCompletes(v, f)[i].entry.totalChunks == n)
    && forall i :: 0 <= i < |FileCompletes(v, f)| ==> FileCompletes(v, f)[i].entry.totalChunks <= n
  }

  function TotalLength(xs: seq<Located<ChunkEntry>>): nat {
    if xs == [] then 0 else TotalLength(xs[..|xs| - 1]) + xs[|xs| - 1].entry.plaintextLength
  }

  /** The checked sum is the sum, unless that reaches 2^64. */
  lemma {:induction false} LengthSumIs(xs: seq<Located<ChunkEntry>>)
    ensures LengthSum(xs) == if TotalLength(xs) < U64_LIMIT then Ok(TotalLength(xs)) else Err(IntegerOverflow)
  {
    if xs == [] {
    } else {
      LengthSumIs(xs[..|xs| - 1]);
    }
  }

  /** The completion at `i` has the most chunks, and is the last one that does. */
  ghost predicate HasMost(xs: seq<Located<CompleteEntry>>, i: nat) {
    && i < |xs|
    && (forall j :: 0 <= j < |xs| ==> xs[j].entry.totalChunks <= xs[i].entry.totalChunks)
    && forall j :: i < j < |xs| ==> xs[j].entry.totalChunks < xs[i].entry.totalChunks
  }

  lemma {:induction false} MostChunksIs(xs: seq<Located<CompleteEntry>>) returns (i: nat)
    requires xs != []
    ensures HasMost(xs, i) && MostChunks(xs) == Some(xs[i])
  {
    var n, before := |xs| - 1, xs[..|xs| - 1];
    i := n;
    if before != [] {
      var j := MostChunksIs(before);
      if before[j].entry.totalChunks > xs[n].entry.totalChunks {
        i := j;
      }
    }
  }

  /** The completeness check passes exactly for complete files.  It tells files without chunks from files
      that are not complete. */
  lemma CompleteIff(v: VaultIndex, f: FileId)
    ensures EnsureFileComplete(v, f) == if FileChunks(v, f) == [] then Err(FileNotFound)
                                        else if CompleteIn(v, f) then Ok(()) else Err(IncompleteFile)
  {
    hide FileChunks, FileCompletes, MostChunks;
    if FileCompletes(v, f) == [] {
      NoMost();
    } else {
      var i := MostChunksIs(FileCompletes(v, f));
    }
  }

  lemma NoMost()
    ensures MostChunks([]) == None
  {
  }

  ghost predicate KeyOccurs<T>(key: T -> nat, xs: seq<T>, k: nat) {
    exists j :: 0 <= j < |xs| && key(xs[j]) == k
  }

  /** Every number below the number of elements is the key of one. */
  ghost predicate AllKeys<T>(key: T -> nat, xs: seq<T>) {
    forall k :: 0 <= k < |xs| ==> KeyOccurs(key, xs, k)
  }

  function KeysIn<T>(key: T -> nat, xs: seq<T>, lo: nat, hi: nat): (keys: set<nat>)
    requires lo <= hi <= |xs|
    ensures |keys| <= hi - lo && forall j :: lo <= j < hi ==> key(xs[j]) in keys
    decreases hi
  {
    if lo == hi then {} else KeysIn(key, xs, lo, hi - 1) + {key(xs[hi - 1])}
  }

  /** Keys need a place each. */
  lemma EnoughPlaces<T>(key: T -> nat, xs: seq<T>, lo: nat, hi: nat, first: nat, count: nat)
    requires lo <= hi <= |xs|
    requires forall k :: first <= k < first + count ==> KeyOccurs(key, xs, k)
    requires forall j :: 0 <= j < |xs| && first <= key(xs[j]) < first + count ==> lo <= j < hi
    ensures count <= hi - lo
  {
    var keys, range := KeysIn(key, xs, lo, hi), Range(first, count);
    forall k | k in range ensures k in keys {
      assert KeyOccurs(key, xs, k);
    }
    SubsetSize(range, keys);
  }

  /** Sorted elements that have all the keys below their number have each once, in order. */
  lemma AllKeysInOrder<T>(key: T -> nat, xs: seq<T>)
    requires SortedBy(key, xs) && AllKeys(key, xs)
    ensures forall i :: 0 <= i < |xs| ==> key(xs[i]) == i
  {
    forall i | 0 <= i < |xs| ensures key(xs[i]) == i {
      if key(xs[i]) > i {
        EnoughPlaces(key, xs, 0, i, 0, i + 1);
      } else if key(xs[i]) < i {
        EnoughPlaces(key, xs, i + 1, |xs|, i, |xs| - i);
      }
    }
  }

  /** Putting a file's chunks in order fails exactly when some number below their count is that of none of
      them, and so when one is missing or there twice. */
  lemma OrderedIff(v: VaultIndex, f: FileId)
    ensures var mine := FileChunks(v, f);
      match OrderedChunks(v, f)
      case Ok(xs) =>
        mine != [] && AllKeys(SequenceKey, mine) && multiset(xs) == multiset(mine) && KeysCount(SequenceKey, xs)
      case Err(e) => if mine == [] then e == FileNotFound else e == IncompleteFile && !AllKeys(SequenceKey, mine)
  {
    hide FileChunks, SortBy;
    var mine := FileChunks(v, f);
    var sorted := SortBy(SequenceKey, mine);
    SortByCorrect(SequenceKey, mine);
    assert |multiset(sorted)| == |multiset(mine)|;
    if AllKeys(SequenceKey, mine) {
      SameKeys(SequenceKey, mine, sorted);
      AllKeysInOrder(SequenceKey, sorted);
    } else if Numbered(sorted) {
      forall k | 0 <= k < |sorted| ensures KeyOccurs(SequenceKey, sorted, k) {
        assert SequenceKey(sorted[k]) == k;
      }
      SameKeys(SequenceKey, sorted, mine);
      assert false;
    }
  }

  lemma SameKeys<T>(key: T -> nat, xs: seq<T>, ys: seq<T>)
    requires multiset(xs) == multiset(ys) && |xs| == |ys| && AllKeys(key, xs)
    ensures AllKeys(key, ys)
  {
    forall k | 0 <= k < |ys| ensures KeyOccurs(key, ys, k) {
      assert KeyOccurs(key, xs, k);
      var j :| 0 <= j < |xs| && key(xs[j]) == k;
      assert xs[j] in multiset(ys);
    }
  }

  // Stored files

  /** Where a file's chunks are, what they hold, and which blob lists its completion. */
  datatype StoredFile = StoredFile(chunks: seq<Located<ChunkEntry>>, pieces: seq<seq<byte>>, completeOn: BlobId) {
    function Contents(): seq<byte> { Join(pieces) }
  }

  /** Some blob has committed the entry as the description of the plaintext. */
  ghost predicate Resolves(shelves: seq<Shelf>, x: Located<ChunkEntry>, plaintext: seq<byte>) {
    exists k, i :: 0 <= k < |shelves| && 0 <= i < |shelves[k].records|
                   && shelves[k].id == x.blobId && shelves[k].records[i] == ChunkRecord(x.entry, plaintext)
  }

  ghost predicate ChunksHold(shelves: seq<Shelf>, f: FileId, s: StoredFile) {
    && 0 < |s.chunks| == |s.pieces| < U64_LIMIT
    && forall i :: 0 <= i < |s.chunks| ==>
         && s.chunks[i].entry.fileId == f && s.chunks[i].entry.sequenceNumber == i
         && s.chunks[i].entry.plaintextLength == |s.pieces[i]| && Resolves(shelves, s.chunks[i], s.pieces[i])
  }

  /** The merged index lists exactly the file's chunks and one completion of them. */
  ghost predicate Listed(hash: seq<byte> -> Hash, v: VaultIndex, f: FileId, s: StoredFile) {
    && |s.chunks| < U64_LIMIT
    && multiset(FileChunks(v, f)) == multiset(s.chunks)
    && multiset(FileCompletes(v, f))
       == multiset{Located(s.completeOn, CompleteEntry(f, |s.chunks|, hash(s.Contents())))}
  }

  ghost predicate Holds(hash: seq<byte> -> Hash, v: VaultIndex, shelves: seq<Shelf>, f: FileId, s: StoredFile) {
    ChunksHold(shelves, f, s) && Listed(hash, v, f, s) && |s.Contents()| < U64_LIMIT
  }

  ghost predicate SameItems<T>(xs: seq<T>, ys: seq<T>) {
    |xs| == |ys| && multiset(xs) == multiset(ys)
  }

  ghost predicate KeysCount<T>(key: T -> nat, ys: seq<T>) {
    forall i :: 0 <= i < |ys| ==> key(ys[i]) == i
  }

  lemma LastAgrees<T>(key: T -> nat, xs: seq<T>, ys: seq<T>)
    requires SortedBy(key, xs) && SameItems(xs, ys) && KeysCount(key, ys) && ys != []
    ensures xs[|xs| - 1] == ys[|ys| - 1]
  {
    var n := |ys|;
    var x, y := xs[n - 1], ys[n - 1];
    assert y in multiset(xs);
    assert x in multiset(ys);
    var p :| 0 <= p < n && xs[p] == y;
    var q :| 0 <= q < n && ys[q] == x;
    assert key(xs[p]) <= key(x);
  }

  lemma DropLast<T>(xs: seq<T>)
    requires xs != []
    ensures multiset(xs[..|xs| - 1]) == multiset(xs) - multiset{xs[|xs| - 1]}
  {
    assert xs == xs[..|xs| - 1] + [xs[|xs| - 1]];
  }

  lemma WithoutLast<T>(xs: seq<T>, ys: seq<T>)
    requires SameItems(xs, ys) && ys != [] && xs[|xs| - 1] == ys[|ys| - 1]
    ensures SameItems(xs[..|xs| - 1], ys[..|ys| - 1])
  {
    DropLast(xs);
    DropLast(ys);
  }

  lemma PrefixOrder<T>(key: T -> nat, xs: seq<T>, ys: seq<T>)
    requires SortedBy(key, xs) && KeysCount(key, ys) && |xs| == |ys| > 0
    ensures SortedBy(key, xs[..|xs| - 1]) && KeysCount(key, ys[..|ys| - 1])
  {
  }

  /** A sorted arrangement of elements with the keys 0, 1, 2 and so on is the numbered one. */
  lemma {:induction false} SortedIsNumbered<T>(key: T -> nat, xs: seq<T>, ys: seq<T>)
    requires SortedBy(key, xs) && SameItems(xs, ys) && KeysCount(key, ys)
    ensures xs == ys
    decreases |ys|
  {
    var n := |ys|;
    assert |xs| == n;
    if n > 0 {
      LastAgrees(key, xs, ys);
      WithoutLast(xs, ys);
      PrefixOrder(key, xs, ys);
      hide SortedBy, SameItems, KeysCount;
      SortedIsNumbered(key, xs[..n - 1], ys[..n - 1]);
      assert xs == xs[..n - 1] + [xs[n - 1]] && ys == ys[..n - 1] + [ys[n - 1]];
    }
  }

  /** Sorting by sequence number puts the pieces of a stored file back in order. */
  lemma OrderedStored(hash: seq<byte> -> Hash, v: VaultIndex, shelves: seq<Shelf>, f: FileId, s: StoredFile)
    requires Holds(hash, v, shelves, f, s)
    ensures OrderedChunks(v, f) == Ok(s.chunks)
  {
    var mine := FileChunks(v, f);
    assert |multiset(mine)| == |multiset(s.chunks)|;
    SortByCorrect(SequenceKey, mine);
    hide Filter, SortBy, FileChunks, FileCompletes, Resolves;
    SortedIsNumbered(SequenceKey, SortBy(SequenceKey, mine), s.chunks);
  }

  lemma OneElement<T>(xs: seq<T>, x: T)
    requires multiset(xs) == multiset{x}
    ensures xs == [x]
  {
    assert |multiset(xs)| == 1;
    assert xs[0] in multiset(xs);
  }

  lemma CompleteStored(hash: seq<byte> -> Hash, v: VaultIndex, shelves: seq<Shelf>, f: FileId, s: StoredFile)
    requires Holds(hash, v, shelves, f, s)
    ensures EnsureFileComplete(v, f) == Ok(())
    ensures LatestComplete(v, f) == Ok(Located(s.completeOn, CompleteEntry(f, |s.chunks|, hash(s.Contents()))))
  {
    hide Filter, Join, Resolves, FileChunks, FileCompletes;
    OneElement(FileCompletes(v, f), Located(s.completeOn, CompleteEntry(f, |s.chunks|, hash(s.Contents()))));
    assert |multiset(FileChunks(v, f))| == |multiset(s.chunks)|;
    assert MostChunks(FileCompletes(v, f)) == Some(FileCompletes(v, f)[0]);
  }

  // Slicing

  lemma PieceAt(pieces: seq<seq<byte>>, i: nat)
    requires i < |pieces|
    ensures var from, to := |Join(pieces[..i])|, |Join(pieces[..i + 1])|;
      to == from + |pieces[i]| && to <= |Join(pieces)| && Join(pieces)[from..to] == pieces[i]
  {
    assert pieces[..i + 1][..i] == pieces[..i];
    assert pieces == pieces[..i + 1] + pieces[i + 1..];
    JoinAppend(pieces[..i + 1], pieces[i + 1..]);
  }

  lemma {:induction false} LengthSumStored(xs: seq<Located<ChunkEntry>>, pieces: seq<seq<byte>>)
    requires |xs| == |pieces| && |Join(pieces)| < U64_LIMIT
    requires forall i :: 0 <= i < |xs| ==> xs[i].entry.plaintextLength == |pieces[i]|
    ensures LengthSum(xs) == Ok(|Join(pieces)|)
  {
    if xs == [] {
    } else {
      LengthSumStored(xs[..|xs| - 1], pieces[..|xs| - 1]);
    }
  }

  /** What reading a range of a file gives. */
  function ReadSlice(contents: seq<byte>, offset: u64, length: u64): Result<seq<byte>> {
    if offset >= |contents| || length == 0 then Ok([])
    else if offset + length >= U64_LIMIT then Err(IntegerOverflow)
    else Ok(contents[offset..Min(offset + length, |contents|)])
  }

  /** What a cursor read gives, and where the cursor then stands. */
  function ReadOn(contents: seq<byte>, position: u64, length: u64): Result<(seq<byte>, u64)> {
    var bytes :- ReadSlice(contents, position, length);
    var next :- CheckedAdd(position, |bytes|);
    Ok((bytes, next))
  }

  /** The bytes a run of cursor reads gives, one after the other, and where the cursor ends. */
  function ReadAll(contents: seq<byte>, position: u64, lengths: seq<u64>): Result<(seq<byte>, u64)> {
    if lengths == [] then Ok(([], position))
    else
      var before :- ReadAll(contents, position, lengths[..|lengths| - 1]);
      var last :- ReadOn(contents, before.1, lengths[|lengths| - 1]);
      Ok((before.0 + last.0, last.1))
  }

  function Sum(lengths: seq<u64>): nat {
    if lengths == [] then 0 else Sum(lengths[..|lengths| - 1]) + lengths[|lengths| - 1]
  }

  /** Any run of cursor reads gives one contiguous slice, as long as was asked for or up to the end of the
      file, and moves the cursor to its end. */
  lemma {:induction false} CursorContiguous(contents: seq<byte>, position: u64, lengths: seq<u64>)
    requires position <= |contents| && ReadAll(contents, position, lengths).Ok?
    ensures var (bytes, now) := ReadAll(contents, position, lengths).value;
      now == Min(|contents|, position + Sum(lengths)) && bytes == contents[position..now]
  {
    if lengths == [] {
    } else {
      CursorContiguous(contents, position, lengths[..|lengths| - 1]);
      var before := ReadAll(contents, position, lengths[..|lengths| - 1]).value;
      var last := ReadOn(contents, before.1, lengths[|lengths| - 1]).value;
      SliceJoin(contents, position, before.1, last.1);
    }
  }

  lemma SliceJoin(contents: seq<byte>, a: nat, b: nat, c: nat)
    requires a <= b <= c <= |contents|
    ensures contents[a..b] + contents[b..c] == contents[a..c]
  {
  }

  lemma HeldHasChunks(hash: seq<byte> -> Hash, v: VaultIndex, shelves: seq<Shelf>, f: FileId, s: StoredFile)
    requires Holds(hash, v, shelves, f, s)
    ensures FileChunks(v, f) != []
  {
    hide FileChunks, FileCompletes, Resolves, Join;
    assert s.chunks[0] in multiset(FileChunks(v, f));
  }

  lemma ChunksHoldLater(shelves: seq<Shelf>, now: seq<Shelf>, f: FileId, s: StoredFile)
    requires ChunksHold(shelves, f, s) && Extends(shelves, now)
    ensures ChunksHold(now, f, s)
  {
    forall i | 0 <= i < |s.chunks| ensures Resolves(now, s.chunks[i], s.pieces[i]) {
      assert Resolves(shelves, s.chunks[i], s.pieces[i]);
      var k, j :| 0 <= k < |shelves| && 0 <= j < |shelves[k].records|
                  && shelves[k].id == s.chunks[i].blobId
                  && shelves[k].records[j] == ChunkRecord(s.chunks[i].entry, s.pieces[i]);
      assert now[k].id == s.chunks[i].blobId && now[k].records[j] == shelves[k].records[j];
    }
  }

  /** A view that is no longer fresh still holds its files, whatever is committed to whichever blobs. */
  lemma HoldsLater(hash: seq<byte> -> Hash, v: VaultIndex, shelves: seq<Shelf>, now: seq<Shelf>, f: FileId,
                   s: StoredFile)
    requires Holds(hash, v, shelves, f, s) && Extends(shelves, now)
    ensures Holds(hash, v, now, f, s)
  {
    hide Listed, Join, ChunksHold;
    ChunksHoldLater(shelves, now, f, s);
  }

  /** `out` is the slice from `offset` on, as far as the chunks before `chunkStart` go. */
  ghost predicate SlicedTo(contents: seq<byte>, offset: nat, end: nat, chunkStart: nat, out: seq<byte>) {
    && offset < end <= |contents| && chunkStart <= |contents|
    && out == if chunkStart <= offset then [] else contents[offset..Min(end, chunkStart)]
  }

  lemma FirstSlice(pieces: seq<seq<byte>>, offset: nat, end: nat)
    ensures |Join(pieces[..0])| == 0
    ensures offset < end <= |Join(pieces)| ==> SlicedTo(Join(pieces), offset, end, 0, [])
  {
  }

  lemma SubSlice(contents: seq<byte>, a: nat, piece: seq<byte>, from: nat, to: nat)
    requires a + |piece| <= |contents| && contents[a..a + |piece|] == piece && from <= to <= |piece|
    ensures piece[from..to] == contents[a + from..a + to]
  {
    forall j | 0 <= j < to - from ensures piece[from..to][j] == contents[a + from..a + to][j] {
      assert contents[a..a + |piece|][from + j] == piece[from + j];
    }
  }

  /** Taking what is asked for of the next piece keeps the slice. */
  lemma SliceTakes(contents: seq<byte>, piece: seq<byte>, offset: nat, end: nat, a: nat, out: seq<byte>)
    requires a + |piece| <= |contents| && contents[a..a + |piece|] == piece && SlicedTo(contents, offset, end, a, out)
    requires a + |piece| > offset && a < end
    ensures SlicedTo(contents, offset, end, a + |piece|,
                     out + piece[SaturatingSub(offset, a)..Min(end, a + |piece|) - a])
  {
    var from, to := SaturatingSub(offset, a), Min(end, a + |piece|) - a;
    SubSlice(contents, a, piece, from, to);
    if a > offset {
      SliceJoin(contents, offset, a, a + to);
    }
  }

  lemma SliceSkips(contents: seq<byte>, offset: nat, end: nat, a: nat, b: nat, out: seq<byte>)
    requires SlicedTo(contents, offset, end, a, out) && a <= b <= offset
    ensures SlicedTo(contents, offset, end, b, out)
  {
  }

  /** Adding one more piece, or the part of it that is asked for, keeps the slice. */
  lemma SliceGrows(pieces: seq<seq<byte>>, i: nat, offset: nat, end: nat, chunkStart: nat, out: seq<byte>)
    requires i < |pieces| && chunkStart == |Join(pieces[..i])| && SlicedTo(Join(pieces), offset, end, chunkStart, out)
    ensures var chunkEnd := chunkStart + |pieces[i]|;
      && chunkEnd == |Join(pieces[..i + 1])| && chunkEnd <= |Join(pieces)|
      && (chunkEnd <= offset ==> SlicedTo(Join(pieces), offset, end, chunkEnd, out))
      && (chunkEnd > offset && chunkStart < end ==>
            SlicedTo(Join(pieces), offset, end, chunkEnd,
                     out + pieces[i][SaturatingSub(offset, chunkStart)..Min(end, chunkEnd) - chunkStart]))
  {
    hide *;
    PieceAt(pieces, i);
    var contents, piece, chunkEnd := Join(pieces), pieces[i], chunkStart + |pieces[i]|;
    assert contents[chunkStart..chunkEnd] == piece;
    if chunkEnd <= offset {
      SliceSkips(contents, offset, end, chunkStart, chunkEnd, out);
    } else if chunkStart < end {
      SliceTakes(contents, piece, offset, end, chunkStart, out);
    }
  }

  lemma SliceDone(pieces: seq<seq<byte>>, i: nat, offset: nat, end: nat, chunkStart: nat, out: seq<byte>)
    requires i <= |pieces| && chunkStart == |Join(pieces[..i])| && SlicedTo(Join(pieces), offset, end, chunkStart, out)
    requires i == |pieces| || chunkStart >= end
    ensures out == Join(pieces)[offset..end]
  {
    if i == |pieces| {
      assert pieces[..i] == pieces;
    }
  }

  lemma WholeSlice(contents: seq<byte>)
    ensures |contents| < U64_LIMIT ==> ReadSlice(contents, 0, |contents|) == Ok(contents)
  {
    assert contents[0..|contents|] == contents;
  }
}
