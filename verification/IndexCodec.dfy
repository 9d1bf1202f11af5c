/** The plaintext of a blob index: a concatenation of tagged, fixed-length entries. */
module IndexCodec {
  import opened Basics

  type FileId = s: seq<byte> | |s| == 16 witness seq(16, _ => 0)
  type Hash = s: seq<byte> | |s| == 32 witness seq(32, _ => 0)

  const CHUNK_TAG: byte := 0x01
  const COMPLETE_TAG: byte := 0x02
  const CHUNK_ENTRY_LEN: nat := 73
  const COMPLETE_ENTRY_LEN: nat := 57

  datatype ChunkEntry = ChunkEntry(
    fileId: FileId, sequenceNumber: u64, offset: u64, plaintextLength: u64, contentHash: Hash)

  datatype CompleteEntry = CompleteEntry(fileId: FileId, totalChunks: u64, contentHash: Hash)

  datatype Entry = Chunk(chunk: ChunkEntry) | Complete(complete: CompleteEntry)

  /** What a reader gets: both kinds of entry, each in the order of the stream. */
  datatype BlobIndex = BlobIndex(chunks: seq<ChunkEntry>, completed: seq<CompleteEntry>)

  const EMPTY_INDEX := BlobIndex([], [])

  function EntryLen(e: Entry): nat {
    if e.Chunk? then CHUNK_ENTRY_LEN else COMPLETE_ENTRY_LEN
  }

  function EncodeEntry(e: Entry): (bytes: seq<byte>)
    ensures |bytes| == EntryLen(e)
  {
    match e
    case Chunk(c) =>
      [CHUNK_TAG] + c.fileId + LittleEndian(c.sequenceNumber, 8) + LittleEndian(c.offset, 8)
      + LittleEndian(c.plaintextLength, 8) + c.contentHash
    case Complete(c) =>
      [COMPLETE_TAG] + c.fileId + LittleEndian(c.totalChunks, 8) + c.contentHash
  }

  /** Where the fields of an entry lie: a tag, then its fields in order, numbers in 8 bytes little-endian. */
  lemma EntryLaidOut(e: Entry)
    ensures var bytes := EncodeEntry(e);
      match e
      case Chunk(c) =>
        && |bytes| == 73 && bytes[0] == 0x01 && bytes[1..17] == c.fileId
        && FromLittleEndian(bytes[17..25]) == c.sequenceNumber && FromLittleEndian(bytes[25..33]) == c.offset
        && FromLittleEndian(bytes[33..41]) == c.plaintextLength && bytes[41..73] == c.contentHash
      case Complete(c) =>
        && |bytes| == 57 && bytes[0] == 0x02 && bytes[1..17] == c.fileId
        && FromLittleEndian(bytes[17..25]) == c.totalChunks && bytes[25..57] == c.contentHash
  {
    var bytes := EncodeEntry(e);
    U64Width();
    match e
    case Chunk(c) =>
      assert bytes[1..17] == c.fileId && bytes[41..73] == c.contentHash;
      assert bytes[17..25] == LittleEndian(c.sequenceNumber, 8) && bytes[25..33] == LittleEndian(c.offset, 8);
      assert bytes[33..41] == LittleEndian(c.plaintextLength, 8);
      LittleEndianRoundTrip(c.sequenceNumber, 8);
      LittleEndianRoundTrip(c.offset, 8);
      LittleEndianRoundTrip(c.plaintextLength, 8);
    case Complete(c) =>
      assert bytes[1..17] == c.fileId && bytes[25..57] == c.contentHash;
      assert bytes[17..25] == LittleEndian(c.totalChunks, 8);
      LittleEndianRoundTrip(c.totalChunks, 8);
  }

  function FlatMap<A, B>(f: A -> seq<B>, xs: seq<A>): seq<B> {
    if xs == [] then [] else f(xs[0]) + FlatMap(f, xs[1..])
  }

  function Encode(es: seq<Entry>): seq<byte> {
    FlatMap(EncodeEntry, es)
  }

  function AddEntry(index: BlobIndex, e: Entry): BlobIndex {
    match e
    case Chunk(c) => index.(chunks := index.chunks + [c])
    case Complete(c) => index.(completed := index.completed + [c])
  }

  /** The chunk and completion lists of an entry stream. */
  function Collect(es: seq<Entry>): BlobIndex {
    if es == [] then EMPTY_INDEX else AddEntry(Collect(es[..|es| - 1]), es[|es| - 1])
  }

  /** The meaning of a stream: the entries it encodes, or an error when it encodes none. */
  ghost function Parse(bytes: seq<byte>): Result<BlobIndex> {
    if exists es :: Encode(es) == bytes then
      var es :| Encode(es) == bytes;
      Ok(Collect(es))
    else
      Err(IndexChainBroken)
  }

  function ReadU64(bytes: seq<byte>): u64
    requires |bytes| == 8
  {
    U64Width();
    FromLittleEndianRoundTrip(bytes);
    FromLittleEndian(bytes)
  }

  /** The entry whose tag and payload start `bytes`, if there is one. */
  function DecodeEntry(bytes: seq<byte>): Option<Entry> {
    if bytes == [] then None
    else if bytes[0] == CHUNK_TAG && |bytes| >= CHUNK_ENTRY_LEN then
      Some(Chunk(ChunkEntry(bytes[1..17], ReadU64(bytes[17..25]), ReadU64(bytes[25..33]),
                            ReadU64(bytes[33..41]), bytes[41..73])))
    else if bytes[0] == COMPLETE_TAG && |bytes| >= COMPLETE_ENTRY_LEN then
      Some(Complete(CompleteEntry(bytes[1..17], ReadU64(bytes[17..25]), bytes[25..57])))
    else None
  }

  lemma ReadU64RoundTrip(n: u64)
    ensures ReadU64(LittleEndian(n, 8)) == n
  {
    U64Width();
    LittleEndianRoundTrip(n, 8);
  }

  lemma DecodeEncoded(e: Entry, rest: seq<byte>)
    ensures DecodeEntry(EncodeEntry(e) + rest) == Some(e)
  {
    var bytes := EncodeEntry(e) + rest;
    match e
    case Chunk(c) =>
      assert bytes[1..17] == c.fileId && bytes[41..73] == c.contentHash;
      assert bytes[17..25] == LittleEndian(c.sequenceNumber, 8);
      assert bytes[25..33] == LittleEndian(c.offset, 8);
      assert bytes[33..41] == LittleEndian(c.plaintextLength, 8);
      ReadU64RoundTrip(c.sequenceNumber);
      ReadU64RoundTrip(c.offset);
      ReadU64RoundTrip(c.plaintextLength);
    case Complete(c) =>
      assert bytes[1..17] == c.fileId && bytes[25..57] == c.contentHash;
      assert bytes[17..25] == LittleEndian(c.totalChunks, 8);
      ReadU64RoundTrip(c.totalChunks);
  }

  lemma EncodeDecoded(bytes: seq<byte>)
    requires DecodeEntry(bytes).Some?
    ensures var e := DecodeEntry(bytes).value;
      EntryLen(e) <= |bytes| && EncodeEntry(e) == bytes[..EntryLen(e)]
  {
    FromLittleEndianRoundTrip(bytes[17..25]);
    if bytes[0] == CHUNK_TAG {
      FromLittleEndianRoundTrip(bytes[25..33]);
      FromLittleEndianRoundTrip(bytes[33..41]);
      assert bytes[..73] == [bytes[0]] + bytes[1..17] + bytes[17..25] + bytes[25..33] + bytes[33..41] + bytes[41..73];
    } else {
      assert bytes[..57] == [bytes[0]] + bytes[1..17] + bytes[17..25] + bytes[25..57];
    }
  }

  lemma {:induction false} FlatMapAppend<A, B>(f: A -> seq<B>, a: seq<A>, b: seq<A>)
    ensures FlatMap(f, a + b) == FlatMap(f, a) + FlatMap(f, b)
  {
    if a == [] {
      assert a + b == b;
    } else {
      FlatMapAppend(f, a[1..], b);
      assert (a + b)[1..] == a[1..] + b;
    }
  }

  /** If `decode` recovers each item from the front of any stream, streams decode in one way only. */
  lemma {:induction false} FlatMapPrefix<A(!new), B(!new)>(
      f: A -> seq<B>, decode: seq<B> -> Option<A>, a: seq<A>, rest: seq<B>, full: seq<A>)
    requires forall x, tail {:trigger f(x) + tail} :: decode(f(x) + tail) == Some(x)
    requires decode([]) == None
    requires FlatMap(f, full) == FlatMap(f, a) + rest
    ensures a <= full && rest == FlatMap(f, full[|a|..])
  {
    if a == [] {
    } else {
      var tail := FlatMap(f, a[1..]) + rest;
      assert FlatMap(f, full) == f(a[0]) + tail;
      assert decode(f(a[0]) + tail) == Some(a[0]);
      assert full != [];
      assert decode(f(full[0]) + FlatMap(f, full[1..])) == Some(full[0]);
      assert FlatMap(f, full)[|f(a[0])|..] == tail;
      FlatMapPrefix(f, decode, a[1..], rest, full[1..]);
    }
  }

  lemma EncodeAppend(a: seq<Entry>, b: seq<Entry>)
    ensures Encode(a + b) == Encode(a) + Encode(b)
  {
    FlatMapAppend(EncodeEntry, a, b);
  }

  lemma EncodeHead(es: seq<Entry>)
    requires es != []
    ensures Encode(es) == EncodeEntry(es[0]) + Encode(es[1..])
  {
  }

  lemma EncodeOne(e: Entry)
    ensures Encode([e]) == EncodeEntry(e)
  {
    assert FlatMap(EncodeEntry, [e][1..]) == [];
  }

  lemma {:induction false} CollectAppend(a: seq<Entry>, b: seq<Entry>)
    ensures Collect(a + b).chunks == Collect(a).chunks + Collect(b).chunks
    ensures Collect(a + b).completed == Collect(a).completed + Collect(b).completed
  {
    if b == [] {
      assert a + b == a;
    } else {
      var n := |b| - 1;
      CollectAppend(a, b[..n]);
      assert (a + b)[..|a| + n] == a + b[..n] && (a + b)[|a| + n] == b[n];
    }
  }

  /** A stream decodes in one way only, and a shorter stream of entries is a prefix of it. */
  lemma EncodePrefix(a: seq<Entry>, rest: seq<byte>, full: seq<Entry>)
    requires Encode(full) == Encode(a) + rest
    ensures a <= full && rest == Encode(full[|a|..])
  {
    forall e: Entry, tail: seq<byte> {:trigger EncodeEntry(e) + tail}
      ensures DecodeEntry(EncodeEntry(e) + tail) == Some(e)
    {
      DecodeEncoded(e, tail);
    }
    FlatMapPrefix(EncodeEntry, DecodeEntry, a, rest, full);
  }

  lemma EncodeInjective(a: seq<Entry>, b: seq<Entry>)
    requires Encode(a) == Encode(b)
    ensures a == b
  {
    assert Encode(b) == Encode(a) + [];
    EncodePrefix(a, [], b);
    EncodedLength(b[|a|..]);
    CollectCounts(b[|a|..]);
  }

  lemma ParseEncoded(es: seq<Entry>)
    ensures Parse(Encode(es)) == Ok(Collect(es))
  {
    var other :| Encode(other) == Encode(es) && Parse(Encode(es)) == Ok(Collect(other));
    EncodeInjective(other, es);
  }

  /** Parsing distributes over concatenation of valid streams. */
  lemma ParseAppend(a: seq<byte>, b: seq<byte>)
    requires Parse(a).Ok? && Parse(b).Ok?
    ensures Parse(a + b) == Ok(BlobIndex(Parse(a).value.chunks + Parse(b).value.chunks,
                                         Parse(a).value.completed + Parse(b).value.completed))
  {
    var x :| Encode(x) == a;
    var y :| Encode(y) == b;
    EncodeAppend(x, y);
    CollectAppend(x, y);
    ParseEncoded(x);
    ParseEncoded(y);
    ParseEncoded(x + y);
  }

  lemma {:induction false} CollectCounts(es: seq<Entry>)
    ensures |Collect(es).chunks| + |Collect(es).completed| == |es|
  {
    if es == [] {
    } else {
      CollectCounts(es[..|es| - 1]);
    }
  }

  /** The length of an accepted stream is fixed by the number of entries of each kind. */
  lemma {:induction false} EncodedLength(es: seq<Entry>)
    ensures |Encode(es)|
         == CHUNK_ENTRY_LEN * |Collect(es).chunks| + COMPLETE_ENTRY_LEN * |Collect(es).completed|
  {
    if es == [] {
    } else {
      var n := |es| - 1;
      EncodedLength(es[..n]);
      EncodeAppend(es[..n], es[n..]);
      assert es == es[..n] + es[n..] && es[n..] == [es[n]];
      EncodeOne(es[n]);
    }
  }

  /** Decodes a stream entry by entry, stopping at an unknown tag or a truncated payload. */
  method ParseEntries(plaintext: seq<byte>) returns (r: Result<BlobIndex>)
    ensures r == Parse(plaintext)
    ensures r.Ok? <==> exists es :: Encode(es) == plaintext
  {
    var index := EMPTY_INDEX;
    var pos := 0;
    ghost var es: seq<Entry> := [];
    while pos < |plaintext|
      invariant 0 <= pos <= |plaintext|
      invariant plaintext[..pos] == Encode(es)
      invariant index == Collect(es)
      decreases |plaintext| - pos
    {
      var tag := plaintext[pos];
      var left := plaintext[pos..];
      assert plaintext == Encode(es) + left;
      if (tag == CHUNK_TAG && |left| < CHUNK_ENTRY_LEN)
         || (tag == COMPLETE_TAG && |left| < COMPLETE_ENTRY_LEN)
         || (tag != CHUNK_TAG && tag != COMPLETE_TAG) {
        NoParse(es, left, plaintext);
        return Err(IndexChainBroken);
      }
      var entry := DecodeEntry(left).value;
      EncodeDecoded(left);
      EncodeAppend(es, [entry]);
      EncodeOne(entry);
      pos := pos + EntryLen(entry);
      index := AddEntry(index, entry);
      es := es + [entry];
      assert es[..|es| - 1] + [entry] == es;
    }
    assert plaintext[..pos] == plaintext;
    ParseEncoded(es);
    return Ok(index);
  }

  /** What follows some entries in a stream begins with an entry. */
  lemma NextDecodes(es: seq<Entry>, left: seq<byte>, all: seq<Entry>)
    requires Encode(all) == Encode(es) + left && left != []
    ensures DecodeEntry(left).Some?
  {
    EncodePrefix(es, left, all);
    var rest := all[|es|..];
    assert rest != [];
    EncodeHead(rest);
    DecodeEncoded(rest[0], Encode(rest[1..]));
  }

  lemma NoParse(es: seq<Entry>, left: seq<byte>, plaintext: seq<byte>)
    requires plaintext == Encode(es) + left && left != []
    requires DecodeEntry(left).None?
    ensures Parse(plaintext) == Err(IndexChainBroken)
    ensures !exists all :: Encode(all) == plaintext
  {
    NoneParses(es, left, plaintext);
  }

  lemma NoneParses(es: seq<Entry>, left: seq<byte>, plaintext: seq<byte>)
    requires plaintext == Encode(es) + left && left != [] && DecodeEntry(left).None?
    ensures !exists all :: Encode(all) == plaintext
  {
    hide *;
    if all :| Encode(all) == plaintext {
      NextDecodes(es, left, all);
    }
  }
}
